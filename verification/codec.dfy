/** The `export` and `import` functions of src/bliss.rs at the level of
    the field sequence handed to the bit packer. Signed values are stored
    offset-binary, `(x + 2^(b-1)) as u32`, unsigned values as they are;
    the fields of one coefficient are interleaved (f, g, a; then t, z) and
    the challenge indices follow. Writing a value wider than its field is
    an error; the byte layout of the packer is not modelled. */
module Codec {
  import opened Arith
  import opened Params
  import opened Scheme
  import opened Keygen
  import opened Sampler

  const U32Bound: int := 0x1_0000_0000

  /** Field widths a 32-bit packer can hold. */
  predicate Narrow(prm: Params)
  {
    && prm.n >= 1 && 1 <= prm.kappa
    && 1 <= prm.fBits <= 31 && 1 <= prm.gBits <= 31 && 1 <= prm.aBits <= 31
    && 1 <= prm.tBits <= 31 && 1 <= prm.zBits <= 31 && 1 <= prm.cidxBits <= 31
  }

  lemma PresetsNarrow(pr: Preset)
    ensures Narrow(Get(pr))
  {
  }

  lemma Pow2Of31()
    ensures Pow2(30) == 0x4000_0000 && Pow2(31) == 0x8000_0000
  {
    assert Pow2(10) == 1024;
    Pow2Add(10, 10);
    Pow2Add(20, 10);
  }

  /** A signed value that offset-binary coding with b bits represents. */
  predicate FitsSigned(x: int, b: nat)
    requires b >= 1
  {
    -(Pow2(b - 1) as int) <= x < Pow2(b - 1)
  }

  /** `(x + 2^(b-1)) as u32`. For an i32 value x, the field fits in b bits
      exactly when x is representable. */
  function Offset(x: int, b: nat): (u: nat)
    requires 1 <= b <= 31 && IsI32(x)
    ensures u < U32Bound
    ensures u < Pow2(b) <==> FitsSigned(x, b)
    ensures FitsSigned(x, b) ==> u == x + Pow2(b - 1)
  {
    Pow2Monotone(b, 31);
    Pow2Monotone(b - 1, 30);
    Pow2Of31();
    (x + Pow2(b - 1)) % U32Bound
  }

  /** `read(b) as i32 - 2^(b-1)`. */
  function Unoffset(u: nat, b: nat): (x: int)
    requires b >= 1
    ensures u < Pow2(b) ==> FitsSigned(x, b)
  {
    u - Pow2(b - 1)
  }

  /** Offset-binary coding is a bijection between representable values and
      b-bit fields. */
  lemma OffsetRoundTrip(x: int, u: nat, b: nat)
    requires 1 <= b <= 31 && IsI32(x)
    ensures FitsSigned(x, b) ==> Unoffset(Offset(x, b), b) == x
    ensures u < Pow2(b) ==> IsI32(Unoffset(u, b)) && Offset(Unoffset(u, b), b) == u
  {
    Pow2Monotone(b, 31);
    Pow2Of31();
  }

  /** The stored form of an unsigned value: `x as u32`. */
  function Unsigned(x: int): (u: nat)
    ensures 0 <= x < U32Bound ==> u == x
  {
    x % U32Bound
  }

  /** For an i32 value, the stored form fits in b bits exactly when the
      value lies in [0, 2^b), and is then the value itself. */
  lemma UnsignedFits(x: int, b: nat)
    requires 1 <= b <= 31 && IsI32(x)
    ensures Unsigned(x) < Pow2(b) <==> 0 <= x < Pow2(b)
    ensures 0 <= x < Pow2(b) ==> Unsigned(x) == x
  {
    Pow2Monotone(b, 31);
    Pow2Of31();
    if x < 0 {
      assert Unsigned(x) == x + U32Bound;
    }
  }

  /** `bitpack.write(v, b)?` over a field sequence: the stream, or an error
      when some value does not fit its width. */
  function Write(vals: seq<nat>, widths: seq<nat>): (r: Option<seq<nat>>)
    requires |vals| == |widths|
    ensures r.Some? <==> forall k | 0 <= k < |vals| :: vals[k] < Pow2(widths[k])
    ensures r.Some? ==> r.value == vals
  {
    if forall k | 0 <= k < |vals| :: vals[k] < Pow2(widths[k]) then Some(vals) else None
  }

  /** What a reader delivers: every value it is asked for fits its
      width. */
  predicate Readable(vals: seq<nat>, widths: seq<nat>)
    requires |widths| <= |vals|
  {
    forall k | 0 <= k < |widths| :: vals[k] < Pow2(widths[k])
  }

  // ---- private keys ----

  predicate KeyShape(prm: Params, sk: PrivateKey)
  {
    && |sk.f| == prm.n && |sk.g| == prm.n && |sk.a| == prm.n
    && (forall i | 0 <= i < prm.n :: IsI32(sk.f[i]) && IsI32(sk.g[i]) && IsI32(sk.a[i]))
  }

  /** Slot k = 3i + r of a private key belongs to coefficient i, field r. */
  lemma Thirds(i: nat)
    ensures (3 * i) / 3 == i && (3 * i + 1) / 3 == i && (3 * i + 2) / 3 == i
    ensures (3 * i) % 3 == 0 && (3 * i + 1) % 3 == 1 && (3 * i + 2) % 3 == 2
  {
    DivModUnique(3 * i, 3, i, 0);
    DivModUnique(3 * i + 1, 3, i, 1);
    DivModUnique(3 * i + 2, 3, i, 2);
  }

  /** Slot k = 2i + r of a signature's coefficients belongs to coefficient
      i, field r. */
  lemma Halves(i: nat)
    ensures (2 * i) / 2 == i && (2 * i + 1) / 2 == i
    ensures (2 * i) % 2 == 0 && (2 * i + 1) % 2 == 1
  {
    DivModUnique(2 * i, 2, i, 0);
    DivModUnique(2 * i + 1, 2, i, 1);
  }

  /** f, g, a per coefficient. */
  function PrivateWidths(prm: Params): (w: seq<nat>)
    ensures |w| == 3 * prm.n
  {
    seq(3 * prm.n, k requires 0 <= k < 3 * prm.n =>
      if k % 3 == 0 then prm.fBits else if k % 3 == 1 then prm.gBits else prm.aBits)
  }

  function PrivateFields(prm: Params, sk: PrivateKey): (vals: seq<nat>)
    requires Narrow(prm) && KeyShape(prm, sk)
    ensures |vals| == 3 * prm.n
  {
    seq(3 * prm.n, k requires 0 <= k < 3 * prm.n =>
      if k % 3 == 0 then Offset(sk.f[k / 3], prm.fBits)
      else if k % 3 == 1 then Offset(sk.g[k / 3], prm.gBits)
      else Unsigned(sk.a[k / 3]))
  }

  /** `PrivateKey::export`: per coefficient, f and g offset-binary and a as
      it is, in that order. */
  function ExportPrivate(prm: Params, sk: PrivateKey): (r: Option<seq<nat>>)
    requires Narrow(prm) && KeyShape(prm, sk)
    ensures r.Some? ==> |r.value| == 3 * prm.n
    ensures r.Some? ==> forall i | 0 <= i < prm.n ::
      && r.value[3 * i] == Offset(sk.f[i], prm.fBits)
      && r.value[3 * i + 1] == Offset(sk.g[i], prm.gBits)
      && r.value[3 * i + 2] == sk.a[i]
  {
    PrivateLayout(prm, sk);
    Write(PrivateFields(prm, sk), PrivateWidths(prm))
  }

  /** The fields of every coefficient; a stored a that fits its width is a
      itself. */
  lemma PrivateLayout(prm: Params, sk: PrivateKey)
    requires Narrow(prm) && KeyShape(prm, sk)
    ensures forall i | 0 <= i < prm.n ::
      && PrivateFields(prm, sk)[3 * i] == Offset(sk.f[i], prm.fBits)
      && PrivateFields(prm, sk)[3 * i + 1] == Offset(sk.g[i], prm.gBits)
      && PrivateWidths(prm)[3 * i + 2] == prm.aBits
      && (PrivateFields(prm, sk)[3 * i + 2] < Pow2(prm.aBits) ==> PrivateFields(prm, sk)[3 * i + 2] == sk.a[i])
  {
    forall i | 0 <= i < prm.n
      ensures && PrivateFields(prm, sk)[3 * i] == Offset(sk.f[i], prm.fBits)
              && PrivateFields(prm, sk)[3 * i + 1] == Offset(sk.g[i], prm.gBits)
              && PrivateWidths(prm)[3 * i + 2] == prm.aBits
              && (PrivateFields(prm, sk)[3 * i + 2] < Pow2(prm.aBits) ==> PrivateFields(prm, sk)[3 * i + 2] == sk.a[i])
    {
      PrivateSlots(prm, sk, i);
      UnsignedFits(sk.a[i], prm.aBits);
    }
  }

  /** `PrivateKey::import`. The input has the exact length of an exported
      key, so every read succeeds; a field read within its width gives a
      coefficient that width represents. */
  function ImportPrivate(prm: Params, vals: seq<nat>): (sk: PrivateKey)
    requires Narrow(prm) && |vals| == 3 * prm.n
    ensures |sk.f| == prm.n && |sk.g| == prm.n && |sk.a| == prm.n
    ensures forall i | 0 <= i < prm.n && vals[3 * i] < Pow2(prm.fBits) :: FitsSigned(sk.f[i], prm.fBits)
    ensures forall i | 0 <= i < prm.n && vals[3 * i + 1] < Pow2(prm.gBits) :: FitsSigned(sk.g[i], prm.gBits)
    ensures forall i | 0 <= i < prm.n && vals[3 * i + 2] < Pow2(prm.aBits) :: 0 <= sk.a[i] < Pow2(prm.aBits)
  {
    PrivateKey(
      seq(prm.n, i requires 0 <= i < prm.n => Unoffset(vals[3 * i], prm.fBits)),
      seq(prm.n, i requires 0 <= i < prm.n => Unoffset(vals[3 * i + 1], prm.gBits)),
      seq(prm.n, i requires 0 <= i < prm.n => vals[3 * i + 2] as int))
  }

  /** Every coefficient fits its field. */
  predicate KeyFits(prm: Params, sk: PrivateKey)
    requires Narrow(prm) && KeyShape(prm, sk)
  {
    forall i | 0 <= i < prm.n ::
      FitsSigned(sk.f[i], prm.fBits) && FitsSigned(sk.g[i], prm.gBits) && 0 <= sk.a[i] < Pow2(prm.aBits)
  }

  /** The three fields of coefficient i. */
  lemma PrivateSlots(prm: Params, sk: PrivateKey, i: nat)
    requires Narrow(prm) && KeyShape(prm, sk) && i < prm.n
    ensures PrivateFields(prm, sk)[3 * i] == Offset(sk.f[i], prm.fBits)
    ensures PrivateFields(prm, sk)[3 * i + 1] == Offset(sk.g[i], prm.gBits)
    ensures PrivateFields(prm, sk)[3 * i + 2] == Unsigned(sk.a[i])
    ensures PrivateWidths(prm)[3 * i] == prm.fBits
    ensures PrivateWidths(prm)[3 * i + 1] == prm.gBits
    ensures PrivateWidths(prm)[3 * i + 2] == prm.aBits
  {
    Thirds(i);
  }

  /** Coefficient i fits its fields exactly when its three stored values
      do. */
  lemma PrivateSlotFits(prm: Params, sk: PrivateKey, i: nat)
    requires Narrow(prm) && KeyShape(prm, sk) && i < prm.n
    ensures (FitsSigned(sk.f[i], prm.fBits) && FitsSigned(sk.g[i], prm.gBits) && 0 <= sk.a[i] < Pow2(prm.aBits))
      <==> (&& PrivateFields(prm, sk)[3 * i] < Pow2(PrivateWidths(prm)[3 * i])
           && PrivateFields(prm, sk)[3 * i + 1] < Pow2(PrivateWidths(prm)[3 * i + 1])
           && PrivateFields(prm, sk)[3 * i + 2] < Pow2(PrivateWidths(prm)[3 * i + 2]))
  {
    PrivateSlots(prm, sk, i);
    UnsignedFits(sk.a[i], prm.aBits);
  }

  /** Export of a private key succeeds exactly when every coefficient
      fits. */
  lemma PrivateExportOk(prm: Params, sk: PrivateKey)
    requires Narrow(prm) && KeyShape(prm, sk)
    ensures ExportPrivate(prm, sk).Some? <==> KeyFits(prm, sk)
  {
    var vals := PrivateFields(prm, sk);
    var w := PrivateWidths(prm);
    if KeyFits(prm, sk) {
      forall k | 0 <= k < 3 * prm.n
        ensures vals[k] < Pow2(w[k])
      {
        var i := k / 3;
        PrivateSlotFits(prm, sk, i);
        assert k == 3 * i || k == 3 * i + 1 || k == 3 * i + 2;
      }
    } else {
      var i :| 0 <= i < prm.n && !(FitsSigned(sk.f[i], prm.fBits) && FitsSigned(sk.g[i], prm.gBits) && 0 <= sk.a[i] < Pow2(prm.aBits));
      PrivateSlotFits(prm, sk, i);
    }
  }

  lemma KeyCoefficientBack(prm: Params, sk: PrivateKey, i: nat)
    requires Narrow(prm) && KeyShape(prm, sk) && KeyFits(prm, sk) && i < prm.n
    ensures ImportPrivate(prm, PrivateFields(prm, sk)).f[i] == sk.f[i]
    ensures ImportPrivate(prm, PrivateFields(prm, sk)).g[i] == sk.g[i]
    ensures ImportPrivate(prm, PrivateFields(prm, sk)).a[i] == sk.a[i]
  {
    var vals := PrivateFields(prm, sk);
    var back := ImportPrivate(prm, vals);
    assert back.f[i] == Unoffset(vals[3 * i], prm.fBits);
    assert back.g[i] == Unoffset(vals[3 * i + 1], prm.gBits);
    assert back.a[i] == vals[3 * i + 2];
    PrivateSlots(prm, sk, i);
    OffsetRoundTrip(sk.f[i], 0, prm.fBits);
    OffsetRoundTrip(sk.g[i], 0, prm.gBits);
    UnsignedFits(sk.a[i], prm.aBits);
  }

  /** Export succeeds exactly when every coefficient fits, and then import
      gives the key back. */
  lemma PrivateRoundTrip(prm: Params, sk: PrivateKey)
    requires Narrow(prm) && KeyShape(prm, sk)
    ensures ExportPrivate(prm, sk).Some? <==> KeyFits(prm, sk)
    ensures KeyFits(prm, sk) ==> ImportPrivate(prm, ExportPrivate(prm, sk).value) == sk
  {
    PrivateExportOk(prm, sk);
    if KeyFits(prm, sk) {
      var back := ImportPrivate(prm, PrivateFields(prm, sk));
      forall i | 0 <= i < prm.n
        ensures back.f[i] == sk.f[i] && back.g[i] == sk.g[i] && back.a[i] == sk.a[i]
      {
        KeyCoefficientBack(prm, sk, i);
      }
      assert back.f == sk.f && back.g == sk.g && back.a == sk.a;
    }
  }

  /** Every field sequence a reader can deliver is the export of its
      import. */
  lemma PrivateImportRoundTrip(prm: Params, vals: seq<nat>)
    requires Narrow(prm) && |vals| == 3 * prm.n && Readable(vals, PrivateWidths(prm))
    ensures KeyShape(prm, ImportPrivate(prm, vals))
    ensures ExportPrivate(prm, ImportPrivate(prm, vals)) == Some(vals)
  {
    var sk := ImportPrivate(prm, vals);
    forall i | 0 <= i < prm.n
      ensures vals[3 * i] < Pow2(prm.fBits) && vals[3 * i + 1] < Pow2(prm.gBits) && vals[3 * i + 2] < Pow2(prm.aBits)
    {
      PrivateWidthAt(prm, i);
    }
    forall i | 0 <= i < prm.n
      ensures IsI32(sk.f[i]) && IsI32(sk.g[i]) && IsI32(sk.a[i])
    {
      ReadKeySlot(prm, vals, i);
    }
    var out := PrivateFields(prm, sk);
    forall i | 0 <= i < prm.n
      ensures out[3 * i] == vals[3 * i] && out[3 * i + 1] == vals[3 * i + 1] && out[3 * i + 2] == vals[3 * i + 2]
    {
      ReadKeySlot(prm, vals, i);
      PrivateSlots(prm, sk, i);
    }
    SameTriples(out, vals, prm.n);
  }

  lemma PrivateWidthAt(prm: Params, i: nat)
    requires i < prm.n
    ensures PrivateWidths(prm)[3 * i] == prm.fBits
    ensures PrivateWidths(prm)[3 * i + 1] == prm.gBits
    ensures PrivateWidths(prm)[3 * i + 2] == prm.aBits
  {
    Thirds(i);
  }

  /** Two sequences of 3n entries that agree on every triple are equal. */
  lemma SameTriples(out: seq<nat>, vals: seq<nat>, n: nat)
    requires |out| == 3 * n == |vals|
    requires forall i | 0 <= i < n :: out[3 * i] == vals[3 * i] && out[3 * i + 1] == vals[3 * i + 1] && out[3 * i + 2] == vals[3 * i + 2]
    ensures out == vals
  {
    forall k | 0 <= k < 3 * n
      ensures out[k] == vals[k]
    {
      var i := k / 3;
      assert out[3 * i] == vals[3 * i] && out[3 * i + 1] == vals[3 * i + 1] && out[3 * i + 2] == vals[3 * i + 2];
      assert k == 3 * i || k == 3 * i + 1 || k == 3 * i + 2;
    }
  }

  /** Coefficient i of an imported key: representable, and stored back as
      the values it was read from. */
  lemma ReadKeySlot(prm: Params, vals: seq<nat>, i: nat)
    requires Narrow(prm) && |vals| == 3 * prm.n && i < prm.n
    requires vals[3 * i] < Pow2(prm.fBits) && vals[3 * i + 1] < Pow2(prm.gBits) && vals[3 * i + 2] < Pow2(prm.aBits)
    ensures var sk := ImportPrivate(prm, vals);
      && IsI32(sk.f[i]) && IsI32(sk.g[i]) && IsI32(sk.a[i])
      && Offset(sk.f[i], prm.fBits) == vals[3 * i]
      && Offset(sk.g[i], prm.gBits) == vals[3 * i + 1]
      && Unsigned(sk.a[i]) == vals[3 * i + 2]
  {
    var sk := ImportPrivate(prm, vals);
    assert sk.f[i] == Unoffset(vals[3 * i], prm.fBits);
    assert sk.g[i] == Unoffset(vals[3 * i + 1], prm.gBits);
    assert sk.a[i] == vals[3 * i + 2];
    Pow2Monotone(prm.aBits, 31);
    Pow2Of31();
    OffsetRoundTrip(0, vals[3 * i], prm.fBits);
    OffsetRoundTrip(0, vals[3 * i + 1], prm.gBits);
    UnsignedFits(vals[3 * i + 2], prm.aBits);
  }

  // ---- public keys ----

  function PublicWidths(prm: Params): (w: seq<nat>)
    ensures |w| == prm.n
  {
    seq(prm.n, _ => prm.aBits)
  }

  /** `PublicKey::export`: every entry as u32 in A_BITS bits. Entries in
      [0, 2^A_BITS) are written as they are. */
  function ExportPublic(prm: Params, pk: PublicKey): (r: Option<seq<nat>>)
    requires |pk.a| == prm.n
    ensures r.Some? ==> |r.value| == prm.n && forall i | 0 <= i < prm.n :: r.value[i] == Unsigned(pk.a[i]) < Pow2(prm.aBits)
    ensures (forall i | 0 <= i < prm.n :: 0 <= pk.a[i] < Pow2(prm.aBits) && pk.a[i] < U32Bound) ==>
      r.Some? && forall i | 0 <= i < prm.n :: r.value[i] == pk.a[i]
  {
    Write(seq(prm.n, i requires 0 <= i < prm.n => Unsigned(pk.a[i])), PublicWidths(prm))
  }

  /** `PublicKey::import`: entries are read as unsigned values, so each is
      nonnegative and below 2^A_BITS when its field is. */
  function ImportPublic(prm: Params, vals: seq<nat>): (pk: PublicKey)
    requires |vals| == prm.n
    ensures |pk.a| == prm.n
    ensures forall i | 0 <= i < prm.n :: 0 <= pk.a[i] && (vals[i] < Pow2(prm.aBits) ==> pk.a[i] < Pow2(prm.aBits))
  {
    PublicKey(seq(prm.n, i requires 0 <= i < prm.n => vals[i] as int))
  }

  /** A public key with entries in [0, 2^A_BITS) round-trips, and so does
      every readable field sequence. */
  lemma PublicRoundTrip(prm: Params, pk: PublicKey, vals: seq<nat>)
    requires Narrow(prm) && |pk.a| == prm.n && |vals| == prm.n
    ensures (forall i | 0 <= i < prm.n :: 0 <= pk.a[i] < Pow2(prm.aBits)) ==>
      ExportPublic(prm, pk).Some? && ImportPublic(prm, ExportPublic(prm, pk).value) == pk
    ensures Readable(vals, PublicWidths(prm)) ==> ExportPublic(prm, ImportPublic(prm, vals)) == Some(vals)
  {
    Pow2Monotone(prm.aBits, 31);
    Pow2Of31();
    var w := PublicWidths(prm);
    if Readable(vals, w) {
      assert forall i | 0 <= i < prm.n :: vals[i] < Pow2(prm.aBits);
      assert seq(prm.n, i requires 0 <= i < prm.n => Unsigned(ImportPublic(prm, vals).a[i])) == vals;
    }
  }

  /** The public key of an exportable private key exports too, and its
      fields are the a fields of the private export. */
  lemma PublicExportMatches(prm: Params, sk: PrivateKey)
    requires Narrow(prm) && KeyShape(prm, sk)
    ensures ExportPrivate(prm, sk).Some? ==>
      && Public(sk).a == sk.a
      && ExportPublic(prm, Public(sk)).Some?
      && forall i | 0 <= i < prm.n :: ExportPublic(prm, Public(sk)).value[i] == ExportPrivate(prm, sk).value[3 * i + 2]
  {
    PrivateExportOk(prm, sk);
  }

  // ---- signatures ----

  predicate SigShape(prm: Params, sig: Signature)
  {
    && |sig.t| == prm.n && |sig.z| == prm.n && |sig.cIdx| == prm.kappa
    && (forall i | 0 <= i < prm.n :: IsI32(sig.t[i]) && IsI32(sig.z[i]))
    && (forall j | 0 <= j < prm.kappa :: sig.cIdx[j] < U32Bound)
  }

  /** t, z per coefficient, then the indices. */
  function SignatureWidths(prm: Params): (w: seq<nat>)
    ensures |w| == 2 * prm.n + prm.kappa
  {
    seq(2 * prm.n + prm.kappa, k requires 0 <= k < 2 * prm.n + prm.kappa =>
      if k >= 2 * prm.n then prm.cidxBits else if k % 2 == 0 then prm.tBits else prm.zBits)
  }

  function SignatureFields(prm: Params, sig: Signature): (vals: seq<nat>)
    requires Narrow(prm) && SigShape(prm, sig)
    ensures |vals| == 2 * prm.n + prm.kappa
  {
    seq(2 * prm.n + prm.kappa, k requires 0 <= k < 2 * prm.n + prm.kappa =>
      if k >= 2 * prm.n then Unsigned(sig.cIdx[k - 2 * prm.n])
      else if k % 2 == 0 then Offset(sig.t[k / 2], prm.tBits)
      else Offset(sig.z[k / 2], prm.zBits))
  }

  /** `Signature::export`: per coefficient, t and z offset-binary, then the
      challenge indices as they are. */
  function ExportSignature(prm: Params, sig: Signature): (r: Option<seq<nat>>)
    requires Narrow(prm) && SigShape(prm, sig)
    ensures r.Some? ==> |r.value| == 2 * prm.n + prm.kappa
    ensures r.Some? ==> forall i | 0 <= i < prm.n ::
      r.value[2 * i] == Offset(sig.t[i], prm.tBits) && r.value[2 * i + 1] == Offset(sig.z[i], prm.zBits)
    ensures r.Some? ==> forall j | 0 <= j < prm.kappa :: r.value[2 * prm.n + j] == sig.cIdx[j]
  {
    SignatureLayout(prm, sig);
    Write(SignatureFields(prm, sig), SignatureWidths(prm))
  }

  lemma SignatureLayout(prm: Params, sig: Signature)
    requires Narrow(prm) && SigShape(prm, sig)
    ensures forall i | 0 <= i < prm.n ::
      && SignatureFields(prm, sig)[2 * i] == Offset(sig.t[i], prm.tBits)
      && SignatureFields(prm, sig)[2 * i + 1] == Offset(sig.z[i], prm.zBits)
    ensures forall j | 0 <= j < prm.kappa :: SignatureFields(prm, sig)[2 * prm.n + j] == sig.cIdx[j]
  {
    forall i | 0 <= i < prm.n
      ensures && SignatureFields(prm, sig)[2 * i] == Offset(sig.t[i], prm.tBits)
              && SignatureFields(prm, sig)[2 * i + 1] == Offset(sig.z[i], prm.zBits)
    {
      SignatureSlots(prm, sig, i);
    }
    forall j | 0 <= j < prm.kappa
      ensures SignatureFields(prm, sig)[2 * prm.n + j] == sig.cIdx[j]
    {
      IndexSlot(prm, sig, j);
    }
  }

  /** `Signature::import`: the input may be of any length; a read past its
      end is an error, and fields after the indices are ignored. */
  function ImportSignature(prm: Params, vals: seq<nat>): (r: Option<Signature>)
    requires Narrow(prm)
    ensures r.Some? <==> |vals| >= 2 * prm.n + prm.kappa
    ensures r.Some? ==> |r.value.t| == prm.n && |r.value.z| == prm.n && |r.value.cIdx| == prm.kappa
  {
    if |vals| < 2 * prm.n + prm.kappa then None else Some(SignatureOfFields(prm, vals))
  }

  /** The signature read from the first 2N + KAPPA fields. */
  function SignatureOfFields(prm: Params, vals: seq<nat>): (sig: Signature)
    requires Narrow(prm) && |vals| >= 2 * prm.n + prm.kappa
    ensures |sig.t| == prm.n && |sig.z| == prm.n && |sig.cIdx| == prm.kappa
  {
    Signature(
      seq(prm.n, i requires 0 <= i < prm.n => Unoffset(vals[2 * i], prm.tBits)),
      seq(prm.n, i requires 0 <= i < prm.n => Unoffset(vals[2 * i + 1], prm.zBits)),
      seq(prm.kappa, j requires 0 <= j < prm.kappa => vals[2 * prm.n + j]))
  }

  predicate SigFits(prm: Params, sig: Signature)
    requires Narrow(prm) && SigShape(prm, sig)
  {
    && (forall i | 0 <= i < prm.n :: FitsSigned(sig.t[i], prm.tBits) && FitsSigned(sig.z[i], prm.zBits))
    && (forall j | 0 <= j < prm.kappa :: sig.cIdx[j] < Pow2(prm.cidxBits))
  }

  /** The two fields of coefficient i. */
  lemma SignatureSlots(prm: Params, sig: Signature, i: nat)
    requires Narrow(prm) && SigShape(prm, sig) && i < prm.n
    ensures SignatureFields(prm, sig)[2 * i] == Offset(sig.t[i], prm.tBits)
    ensures SignatureFields(prm, sig)[2 * i + 1] == Offset(sig.z[i], prm.zBits)
    ensures SignatureWidths(prm)[2 * i] == prm.tBits
    ensures SignatureWidths(prm)[2 * i + 1] == prm.zBits
  {
    Halves(i);
  }

  /** The field of the j-th challenge index. */
  lemma IndexSlot(prm: Params, sig: Signature, j: nat)
    requires Narrow(prm) && SigShape(prm, sig) && j < prm.kappa
    ensures SignatureFields(prm, sig)[2 * prm.n + j] == Unsigned(sig.cIdx[j])
    ensures SignatureWidths(prm)[2 * prm.n + j] == prm.cidxBits
    ensures SignatureFields(prm, sig)[2 * prm.n + j] < Pow2(prm.cidxBits) <==> sig.cIdx[j] < Pow2(prm.cidxBits)
  {
    Pow2Monotone(prm.cidxBits, 31);
    Pow2Of31();
  }

  /** Field k of an export fits its width when the signature fits. */
  lemma SignatureFieldFits(prm: Params, sig: Signature, k: nat)
    requires Narrow(prm) && SigShape(prm, sig) && SigFits(prm, sig) && k < 2 * prm.n + prm.kappa
    ensures SignatureFields(prm, sig)[k] < Pow2(SignatureWidths(prm)[k])
  {
    if k < 2 * prm.n {
      var i := k / 2;
      SignatureSlots(prm, sig, i);
      assert k == 2 * i || k == 2 * i + 1;
    } else {
      IndexSlot(prm, sig, k - 2 * prm.n);
    }
  }

  /** Export of a signature succeeds exactly when every field fits. */
  lemma SignatureExportOk(prm: Params, sig: Signature)
    requires Narrow(prm) && SigShape(prm, sig)
    ensures ExportSignature(prm, sig).Some? <==> SigFits(prm, sig)
  {
    var n := prm.n;
    var vals := SignatureFields(prm, sig);
    var w := SignatureWidths(prm);
    if SigFits(prm, sig) {
      forall k | 0 <= k < 2 * n + prm.kappa
        ensures vals[k] < Pow2(w[k])
      {
        SignatureFieldFits(prm, sig, k);
      }
    } else if exists i | 0 <= i < n :: !(FitsSigned(sig.t[i], prm.tBits) && FitsSigned(sig.z[i], prm.zBits)) {
      var i :| 0 <= i < n && !(FitsSigned(sig.t[i], prm.tBits) && FitsSigned(sig.z[i], prm.zBits));
      SignatureSlots(prm, sig, i);
      if !FitsSigned(sig.t[i], prm.tBits) {
        assert !(vals[2 * i] < Pow2(w[2 * i]));
      } else {
        assert !(vals[2 * i + 1] < Pow2(w[2 * i + 1]));
      }
    } else {
      var j :| 0 <= j < prm.kappa && sig.cIdx[j] >= Pow2(prm.cidxBits);
      IndexSlot(prm, sig, j);
      assert !(vals[2 * n + j] < Pow2(w[2 * n + j]));
    }
  }

  /** Export succeeds exactly when every field fits, and then import gives
      the signature back. */
  lemma SignatureRoundTrip(prm: Params, sig: Signature)
    requires Narrow(prm) && SigShape(prm, sig)
    ensures ExportSignature(prm, sig).Some? <==> SigFits(prm, sig)
    ensures SigFits(prm, sig) ==> ImportSignature(prm, ExportSignature(prm, sig).value) == Some(sig)
  {
    SignatureExportOk(prm, sig);
    if SigFits(prm, sig) {
      var n := prm.n;
      var vals := SignatureFields(prm, sig);
      assert ExportSignature(prm, sig).value == vals;
      var back := SignatureOfFields(prm, vals);
      forall i | 0 <= i < n
        ensures back.t[i] == sig.t[i] && back.z[i] == sig.z[i]
      {
        CoefficientBack(prm, sig, i);
      }
      forall j | 0 <= j < prm.kappa
        ensures back.cIdx[j] == sig.cIdx[j]
      {
        IndexBack(prm, sig, j);
      }
      assert back.t == sig.t && back.z == sig.z && back.cIdx == sig.cIdx;
    }
  }

  lemma CoefficientBack(prm: Params, sig: Signature, i: nat)
    requires Narrow(prm) && SigShape(prm, sig) && SigFits(prm, sig) && i < prm.n
    ensures SignatureOfFields(prm, SignatureFields(prm, sig)).t[i] == sig.t[i]
    ensures SignatureOfFields(prm, SignatureFields(prm, sig)).z[i] == sig.z[i]
  {
    SignatureSlots(prm, sig, i);
    OffsetRoundTrip(sig.t[i], 0, prm.tBits);
    OffsetRoundTrip(sig.z[i], 0, prm.zBits);
  }

  lemma IndexBack(prm: Params, sig: Signature, j: nat)
    requires Narrow(prm) && SigShape(prm, sig) && SigFits(prm, sig) && j < prm.kappa
    ensures SignatureOfFields(prm, SignatureFields(prm, sig)).cIdx[j] == sig.cIdx[j]
  {
    IndexSlot(prm, sig, j);
  }

  /** What a reader delivers for a signature, field by field. */
  predicate SigReadable(prm: Params, vals: seq<nat>)
    requires |vals| >= 2 * prm.n + prm.kappa
  {
    && (forall i | 0 <= i < prm.n :: vals[2 * i] < Pow2(prm.tBits) && vals[2 * i + 1] < Pow2(prm.zBits))
    && (forall k | 2 * prm.n <= k < 2 * prm.n + prm.kappa :: vals[k] < Pow2(prm.cidxBits))
  }

  /** A readable sequence meets the widths of each kind of field. */
  lemma SigReadableFields(prm: Params, vals: seq<nat>)
    requires |vals| >= 2 * prm.n + prm.kappa
    requires Readable(vals, SignatureWidths(prm))
    ensures SigReadable(prm, vals)
  {
    forall i | 0 <= i < prm.n
      ensures vals[2 * i] < Pow2(prm.tBits) && vals[2 * i + 1] < Pow2(prm.zBits)
    {
      SignatureWidthAt(prm, i);
    }
    forall k | 2 * prm.n <= k < 2 * prm.n + prm.kappa
      ensures vals[k] < Pow2(prm.cidxBits)
    {
      assert SignatureWidths(prm)[k] == prm.cidxBits;
    }
  }

  lemma SignatureWidthAt(prm: Params, i: nat)
    requires i < prm.n
    ensures SignatureWidths(prm)[2 * i] == prm.tBits
    ensures SignatureWidths(prm)[2 * i + 1] == prm.zBits
  {
    Halves(i);
  }

  /** Every readable field sequence long enough to import is, up to the
      fields after the indices that import ignores, the export of its
      import. */
  lemma SignatureImportRoundTrip(prm: Params, vals: seq<nat>)
    requires Narrow(prm) && |vals| >= 2 * prm.n + prm.kappa
    requires Readable(vals, SignatureWidths(prm))
    ensures SigShape(prm, ImportSignature(prm, vals).value)
    ensures ExportSignature(prm, ImportSignature(prm, vals).value) == Some(vals[..2 * prm.n + prm.kappa])
  {
    SigReadableFields(prm, vals);
    ReadShape(prm, vals);
    ReadFields(prm, vals);
  }

  lemma ReadShape(prm: Params, vals: seq<nat>)
    requires Narrow(prm) && |vals| >= 2 * prm.n + prm.kappa && SigReadable(prm, vals)
    ensures SigShape(prm, SignatureOfFields(prm, vals))
  {
    var sig := SignatureOfFields(prm, vals);
    forall i | 0 <= i < prm.n
      ensures IsI32(sig.t[i]) && IsI32(sig.z[i])
    {
      ReadSlot(prm, vals, i);
    }
    forall j | 0 <= j < prm.kappa
      ensures sig.cIdx[j] < U32Bound
    {
      assert vals[2 * prm.n + j] < Pow2(prm.cidxBits);
      ReadIndex(prm, vals, j);
    }
  }

  lemma ReadFields(prm: Params, vals: seq<nat>)
    requires Narrow(prm) && |vals| >= 2 * prm.n + prm.kappa && SigReadable(prm, vals)
    requires SigShape(prm, SignatureOfFields(prm, vals))
    ensures SignatureFields(prm, SignatureOfFields(prm, vals)) == vals[..2 * prm.n + prm.kappa]
  {
    var out := SignatureFields(prm, SignatureOfFields(prm, vals));
    forall i | 0 <= i < prm.n
      ensures out[2 * i] == vals[2 * i] && out[2 * i + 1] == vals[2 * i + 1]
    {
      ReadPair(prm, vals, i);
    }
    forall k | 2 * prm.n <= k < 2 * prm.n + prm.kappa
      ensures out[k] == vals[k]
    {
      ReadIndexField(prm, vals, k - 2 * prm.n);
    }
    SameFields(out, vals, prm.n, prm.kappa);
  }

  /** Two sequences that agree on every pair and on the tail agree on the
      whole prefix. */
  lemma SameFields(out: seq<nat>, vals: seq<nat>, n: nat, kappa: nat)
    requires |out| == 2 * n + kappa <= |vals|
    requires forall i | 0 <= i < n :: out[2 * i] == vals[2 * i] && out[2 * i + 1] == vals[2 * i + 1]
    requires forall k | 2 * n <= k < 2 * n + kappa :: out[k] == vals[k]
    ensures out == vals[..2 * n + kappa]
  {
    forall k | 0 <= k < 2 * n
      ensures out[k] == vals[k]
    {
      var i := k / 2;
      assert out[2 * i] == vals[2 * i] && out[2 * i + 1] == vals[2 * i + 1];
      assert k == 2 * i || k == 2 * i + 1;
    }
  }

  /** Coefficient i of an imported signature: representable, and stored
      back as the values it was read from. */
  lemma ReadSlot(prm: Params, vals: seq<nat>, i: nat)
    requires Narrow(prm) && |vals| >= 2 * prm.n + prm.kappa && i < prm.n
    requires vals[2 * i] < Pow2(prm.tBits) && vals[2 * i + 1] < Pow2(prm.zBits)
    ensures var sig := SignatureOfFields(prm, vals);
      && IsI32(sig.t[i]) && IsI32(sig.z[i])
      && Offset(sig.t[i], prm.tBits) == vals[2 * i]
      && Offset(sig.z[i], prm.zBits) == vals[2 * i + 1]
  {
    var sig := SignatureOfFields(prm, vals);
    assert sig.t[i] == Unoffset(vals[2 * i], prm.tBits);
    assert sig.z[i] == Unoffset(vals[2 * i + 1], prm.zBits);
    OffsetRoundTrip(0, vals[2 * i], prm.tBits);
    OffsetRoundTrip(0, vals[2 * i + 1], prm.zBits);
  }

  lemma ReadIndex(prm: Params, vals: seq<nat>, j: nat)
    requires Narrow(prm) && |vals| >= 2 * prm.n + prm.kappa && j < prm.kappa
    requires vals[2 * prm.n + j] < Pow2(prm.cidxBits)
    ensures SignatureOfFields(prm, vals).cIdx[j] == vals[2 * prm.n + j] < U32Bound
  {
    Pow2Monotone(prm.cidxBits, 31);
    Pow2Of31();
  }

  lemma ReadPair(prm: Params, vals: seq<nat>, i: nat)
    requires Narrow(prm) && |vals| >= 2 * prm.n + prm.kappa && i < prm.n
    requires vals[2 * i] < Pow2(prm.tBits) && vals[2 * i + 1] < Pow2(prm.zBits)
    requires SigShape(prm, SignatureOfFields(prm, vals))
    ensures SignatureFields(prm, SignatureOfFields(prm, vals))[2 * i] == vals[2 * i]
    ensures SignatureFields(prm, SignatureOfFields(prm, vals))[2 * i + 1] == vals[2 * i + 1]
  {
    ReadSlot(prm, vals, i);
    SignatureSlots(prm, SignatureOfFields(prm, vals), i);
  }

  lemma ReadIndexField(prm: Params, vals: seq<nat>, j: nat)
    requires Narrow(prm) && |vals| >= 2 * prm.n + prm.kappa && j < prm.kappa
    requires vals[2 * prm.n + j] < Pow2(prm.cidxBits)
    requires SigShape(prm, SignatureOfFields(prm, vals))
    ensures SignatureFields(prm, SignatureOfFields(prm, vals))[2 * prm.n + j] == vals[2 * prm.n + j]
  {
    IndexSlot(prm, SignatureOfFields(prm, vals), j);
    ReadIndex(prm, vals, j);
  }

  // ---- key widths ----

  /** Presets O and III draw nz2 > 0 entries of magnitude 2 into f and into
      the vector g is made from, yet keep the 2-bit f field and 3-bit g
      field of the presets without such entries. A key holding f = 2 or
      g = 4 anywhere cannot be exported. */
  lemma NarrowWidthsRejectKeys(pr: Preset, sk: PrivateKey, i: nat)
    requires pr == O || pr == III
    requires KeyShape(Get(pr), sk) && i < Get(pr).n && (sk.f[i] == 2 || sk.g[i] == 4)
    ensures Get(pr).nz2 > 0
    ensures ExportPrivate(Get(pr), sk).None?
  {
    PresetsNarrow(pr);
    PrivateRoundTrip(Get(pr), sk);
    assert Pow2(1) == 2 && Pow2(2) == 4;
  }

  /** The largest magnitude keygen writes into f and into the vector g is
      made from. */
  function Spread(prm: Params): (m: nat)
    ensures m == 1 || m == 2
    ensures m == 2 <==> prm.nz2 > 0
  {
    if prm.nz2 > 0 then 2 else 1
  }

  /** Spread is the largest magnitude among the entries `uniform_poly`
      writes from the zero vector, and some entry reaches it as soon as any
      entry is drawn. */
  lemma SpreadIsLargest(prm: Params, draws: seq<nat>)
    requires Valid(prm)
    ensures var r := UniformSpec(Zeros(prm.n), prm.nz1, prm.nz2, draws).0;
      r.Some? ==>
        && (forall i | 0 <= i < prm.n :: Abs(r.value[i]) <= Spread(prm))
        && (prm.nz1 + prm.nz2 >= 1 <==> exists i | 0 <= i < prm.n :: Abs(r.value[i]) == Spread(prm))
  {
    var z := Zeros(prm.n);
    var r := UniformSpec(z, prm.nz1, prm.nz2, draws).0;
    UniformSpecProps(z, prm.nz1, prm.nz2, draws);
    if r.Some? {
      var v := r.value;
      forall i | 0 <= i < prm.n
        ensures Abs(v[i]) <= Spread(prm)
      {
        if prm.nz2 == 0 && v[i] != 0 {
          TallyWitness(z, v, 2, prm.n);
          assert Abs(v[i]) != 2;
        }
      }
      TallyWitness(z, v, 1, prm.n);
      TallyWitness(z, v, 2, prm.n);
    }
  }

  /** The widths a preset needs for its keys: 3 bits for f and 4 for g
      when entries of magnitude 2 are drawn. */
  function Widened(prm: Params): (wide: Params)
    ensures wide.fBits >= prm.fBits && wide.gBits >= prm.gBits
    ensures wide.n == prm.n && wide.q == prm.q && wide.aBits == prm.aBits
    ensures wide == prm <==> (prm.nz2 <= 0 || (prm.fBits >= 3 && prm.gBits >= 4))
  {
    if prm.nz2 > 0 then prm.(fBits := Max(prm.fBits, 3), gBits := Max(prm.gBits, 4)) else prm
  }

  /** A private key of the form keygen produces. */
  predicate Generated(prm: Params, sk: PrivateKey)
  {
    && prm.n >= 1 && |sk.f| == prm.n && |sk.g| == prm.n && |sk.a| == prm.n
    && sk.g == ShapeG(UnshapeG(sk.g))
    && (forall i | 0 <= i < prm.n :: Abs(sk.f[i]) <= Spread(prm) && Abs(UnshapeG(sk.g)[i]) <= Spread(prm))
    && (forall i | 0 <= i < prm.n :: 0 <= sk.a[i] < prm.q)
  }

  /** The widths a parameter set needs when its widened form is used:
      2 bits for f and 3 for g suffice without magnitude-2 entries. */
  predicate WideEnough(prm: Params)
  {
    && Narrow(prm) && Pow2(prm.aBits) >= prm.q
    && (prm.nz2 <= 0 ==> prm.fBits >= 2 && prm.gBits >= 3)
  }

  /** Every preset meets the width condition once widened; presets I, II
      and IV are left as they are. */
  lemma PresetsWideEnough(pr: Preset)
    ensures WideEnough(Widened(Get(pr)))
    ensures pr != O && pr != III ==> Widened(Get(pr)) == Get(pr)
  {
    PresetsNarrow(pr);
    AllPresetsValid(pr);
  }

  /** With the widened widths every generated key is exported and imported
      back unchanged. */
  lemma GeneratedKeysRoundTrip(prm: Params, sk: PrivateKey)
    requires WideEnough(Widened(prm)) && Generated(prm, sk)
    ensures KeyShape(Widened(prm), sk)
    ensures ExportPrivate(Widened(prm), sk).Some?
    ensures ImportPrivate(Widened(prm), ExportPrivate(Widened(prm), sk).value) == sk
  {
    var wide := Widened(prm);
    assert Pow2(1) == 2 && Pow2(2) == 4 && Pow2(3) == 8;
    if prm.nz2 > 0 {
      Pow2Monotone(2, wide.fBits - 1);
      Pow2Monotone(3, wide.gBits - 1);
    } else {
      Pow2Monotone(1, wide.fBits - 1);
      Pow2Monotone(2, wide.gBits - 1);
    }
    Pow2Monotone(wide.aBits, 31);
    Pow2Of31();
    var s := UnshapeG(sk.g);
    forall i | 0 <= i < prm.n
      ensures IsI32(sk.f[i]) && IsI32(sk.g[i]) && IsI32(sk.a[i])
      ensures FitsSigned(sk.f[i], wide.fBits) && FitsSigned(sk.g[i], wide.gBits) && 0 <= sk.a[i] < Pow2(wide.aBits)
    {
      assert sk.g[i] == ShapeG(s)[i] == 2 * s[i] - (if i == 0 then 1 else 0);
    }
    PrivateRoundTrip(wide, sk);
  }
}
