/** The five parameter presets of src/param.rs, the buffer lengths the
    `bliss_param!` macro derives from them, and the facts about the twist
    tables that the transform relies on. In the source a preset is picked by
    a cargo feature; here it is a value. */
module Params {
  import opened Arith
  import Tables

  datatype Preset = O | I | II | III | IV

  /** One parameter set: moduli, ring size, rounding exponent, challenge
      weight, rejection bounds, sparse counts, Gaussian constants, the
      per-field bit widths of the wire format and the twist tables. */
  datatype Params = Params(
    q: int, n: nat, d: nat, p: int, kappa: nat, bInf: int, bL2: int,
    nz1: int, nz2: int, pmax: int, sigma: real, m: real,
    fBits: nat, gBits: nat, aBits: nat, tBits: nat, zBits: nat, cidxBits: nat,
    w: seq<int>, r: seq<int>)

  function Get(pr: Preset): Params
  {
    match pr
    case O =>
      Params(7681, 256, 5, 480, 12, 542, 2428 * 2428,
             140, 38, 17928, 100.0, 2.44,
             2, 3, 14, 12, 5, 9,
             Tables.W256Table(), Tables.R256Table())
    case I =>
      Params(12289, 512, 10, 24, 23, 2100, 12872 * 12872,
             154, 0, 17825, 215.0, 1.21,
             2, 3, 14, 12, 3, 9,
             Tables.W512Table(), Tables.R512Table())
    case II =>
      Params(12289, 512, 10, 24, 23, 1563, 11073 * 11073,
             154, 0, 17825, 107.0, 2.18,
             2, 3, 14, 12, 3, 9,
             Tables.W512Table(), Tables.R512Table())
    case III =>
      Params(12289, 512, 9, 48, 30, 1760, 10206 * 10206,
             216, 16, 42270, 250.0, 1.40,
             2, 3, 14, 12, 3, 9,
             Tables.W512Table(), Tables.R512Table())
    case IV =>
      Params(12289, 512, 8, 96, 39, 1613, 9901 * 9901,
             231, 31, 69576, 271.0, 1.61,
             3, 4, 14, 12, 4, 9,
             Tables.W512Table(), Tables.R512Table())
  }

  /** Bytes added after the challenge indices so that the signature buffer
      ends on a 4-byte boundary. The source always adds at least one byte,
      even when the indices already end on such a boundary. */
  function Padding(c: nat): (pad: nat)
    ensures 1 <= pad <= 4
    ensures (c + pad) % 4 == 0
  {
    4 - c % 4
  }

  function PrivateKeyLength(prm: Params): nat
  {
    prm.fBits * prm.n / 8 + prm.gBits * prm.n / 8 + prm.aBits * prm.n / 8
  }

  function PublicKeyLength(prm: Params): nat
  {
    prm.aBits * prm.n / 8
  }

  function SignatureLength(prm: Params): nat
  {
    var c := prm.cidxBits * prm.kappa / 8;
    prm.tBits * prm.n / 8 + prm.zBits * prm.n / 8 + c + Padding(c)
  }

  /** The relations between the constants of a preset that the rest of the
      model depends on. */
  predicate Valid(prm: Params)
  {
    && prm.q > 2 && prm.q % 2 == 1
    && prm.n >= 1 && prm.n == Pow2(Log2(prm.n))
    && prm.d >= 1 && prm.p > 0 && prm.p % 2 == 0
    && prm.p * Pow2(prm.d) == 2 * prm.q - 2
    && 1 <= prm.kappa <= prm.n
    && prm.nz1 >= 0 && prm.nz2 >= 0 && prm.nz1 + prm.nz2 <= prm.n
    && Pow2(prm.cidxBits) >= prm.n
    && prm.fBits >= 1 && prm.gBits >= 1 && prm.tBits >= 1 && prm.zBits >= 1
    && Pow2(prm.aBits) >= prm.q
    && prm.n * prm.q <= I32Max
    && |prm.w| == prm.n && |prm.r| == prm.n
  }

  /** The table recurrences of src/param.rs, stated on a parameter set. */
  predicate TablesOk(prm: Params)
    requires |prm.w| == prm.n && |prm.r| == prm.n && prm.n >= 2 && prm.q > 0
  {
    && prm.w[0] == 1
    && (forall i | 1 <= i < prm.n :: prm.w[i] == prm.w[i - 1] * prm.w[1] % prm.q)
    && (forall i | 0 <= i < prm.n :: prm.r[i] == prm.r[0] * prm.w[i] % prm.q)
    && 0 <= prm.r[0] < prm.q && 0 <= prm.w[1] < prm.q
    && (prm.w[prm.n / 2] * prm.w[prm.n / 2]) % prm.q == prm.q - 1
    && (prm.r[0] * prm.n) % prm.q == prm.q - 1
  }

  lemma AllPresetsValid(pr: Preset)
    ensures Valid(Get(pr))
  {
    assert Pow2(8) == 256;
    Log2OfPow2(8);
    assert Pow2(9) == 512;
    Log2OfPow2(9);
    assert Pow2(14) == 16384;
    match pr
    case O => assert Pow2(5) == 32;
    case I => assert Pow2(10) == 1024;
    case II => assert Pow2(10) == 1024;
    case III => assert Pow2(9) == 512;
    case IV => assert Pow2(8) == 256;
  }

  lemma TablesOfPreset(pr: Preset)
    ensures var prm := Get(pr); |prm.w| == prm.n && |prm.r| == prm.n && prm.n >= 2 && TablesOk(prm)
  {
    var prm := Get(pr);
    if prm.n == 256 {
      Tables256(prm);
    } else {
      Tables512(prm);
    }
  }

  lemma Tables256(prm: Params)
    requires prm.n == 256 && prm.q == 7681
    requires prm.w == Tables.W256Table() && prm.r == Tables.R256Table()
    ensures TablesOk(prm)
  {
    Recurrences256(prm.w, prm.r);
    Ends256(prm.w, prm.r);
  }

  /** The two recurrences, entry by entry. */
  lemma Recurrences256(w: seq<int>, r: seq<int>)
    requires w == Tables.W256Table() && r == Tables.R256Table()
    ensures forall i | 1 <= i < 256 :: w[i] == w[i - 1] * w[1] % 7681
    ensures forall i | 0 <= i < 256 :: r[i] == r[0] * w[i] % 7681
  {
    Tables.Entries256();
    forall i | 1 <= i < 256
      ensures w[i] == w[i - 1] * w[1] % 7681
    {
      assert Tables.Entry256Ok(i);
    }
    forall i | 0 <= i < 256
      ensures r[i] == r[0] * w[i] % 7681
    {
      assert Tables.Entry256Ok(i);
    }
  }

  /** The entries the closing conditions read. */
  lemma Ends256(w: seq<int>, r: seq<int>)
    requires w == Tables.W256Table() && r == Tables.R256Table()
    ensures w[0] == 1 && w[1] == 7146 && w[128] == 3383 && r[0] == 30
  {
  }

  lemma Tables512(prm: Params)
    requires prm.n == 512 && prm.q == 12289
    requires prm.w == Tables.W512Table() && prm.r == Tables.R512Table()
    ensures TablesOk(prm)
  {
    Recurrences512(prm.w, prm.r);
    Ends512(prm.w, prm.r);
  }

  /** The two recurrences, entry by entry. */
  lemma Recurrences512(w: seq<int>, r: seq<int>)
    requires w == Tables.W512Table() && r == Tables.R512Table()
    ensures forall i | 1 <= i < 512 :: w[i] == w[i - 1] * w[1] % 12289
    ensures forall i | 0 <= i < 512 :: r[i] == r[0] * w[i] % 12289
  {
    Tables.Entries512();
    forall i | 1 <= i < 512
      ensures w[i] == w[i - 1] * w[1] % 12289
    {
      assert Tables.Entry512Ok(i);
    }
    forall i | 0 <= i < 512
      ensures r[i] == r[0] * w[i] % 12289
    {
      assert Tables.Entry512Ok(i);
    }
  }

  /** The entries the closing conditions read. */
  lemma Ends512(w: seq<int>, r: seq<int>)
    requires w == Tables.W512Table() && r == Tables.R512Table()
    ensures w[0] == 1 && w[1] == 10302 && w[256] == 1479 && r[0] == 24
  {
  }

  /** Every entry of both tables is a reduced residue. */
  lemma TableEntriesReduced(prm: Params)
    requires |prm.w| == prm.n && |prm.r| == prm.n && prm.n >= 2 && prm.q > 1 && TablesOk(prm)
    ensures forall i | 0 <= i < prm.n :: 0 <= prm.w[i] < prm.q && 0 <= prm.r[i] < prm.q
  {
    forall i | 0 <= i < prm.n
      ensures 0 <= prm.w[i] < prm.q && 0 <= prm.r[i] < prm.q
    {
      if i > 0 {
        assert prm.w[i] == prm.w[i - 1] * prm.w[1] % prm.q;
      }
      assert prm.r[i] == prm.r[0] * prm.w[i] % prm.q;
    }
  }

  /** W[i] is the i-th power of W[1], reduced modulo Q. */
  lemma {:induction false} TwiddlePowers(prm: Params, i: nat)
    requires |prm.w| == prm.n && |prm.r| == prm.n && prm.n >= 2 && prm.q > 0 && TablesOk(prm)
    requires i < prm.n
    ensures Cong(prm.w[i], Pow(prm.w[1], i), prm.q)
  {
    if i == 0 {
      assert prm.w[0] - Pow(prm.w[1], 0) == 0;
    } else {
      TwiddlePowers(prm, i - 1);
      CongMod(prm.w[i - 1] * prm.w[1], prm.q);
      CongMul(prm.w[i - 1], Pow(prm.w[1], i - 1), prm.w[1], prm.w[1], prm.q);
      CongTrans(prm.w[i], prm.w[i - 1] * prm.w[1], Pow(prm.w[1], i - 1) * prm.w[1], prm.q);
      PowStep(prm.w[1], i - 1);
    }
  }

  /** W[1] is a primitive 2N-th root of unity: its N-th power is -1. */
  lemma TwiddleOrder(prm: Params, k: nat)
    requires |prm.w| == prm.n && |prm.r| == prm.n && prm.n >= 2 && prm.q > 0 && TablesOk(prm)
    requires prm.n == 2 * k
    ensures Cong(Pow(prm.w[1], prm.n), -1, prm.q)
  {
    TwiddlePowers(prm, k);
    var h := prm.w[k];
    var ph := Pow(prm.w[1], k);
    CongMul(h, ph, h, ph, prm.q);
    CongSym(h * h, ph * ph, prm.q);
    PowAdd(prm.w[1], k, k);
    CongMod(h * h, prm.q);
    CongShift(-1, 1, prm.q);
    CongSym((h * h) % prm.q, h * h, prm.q);
    CongTrans(ph * ph, h * h, (h * h) % prm.q, prm.q);
    CongSym(-1 + 1 * prm.q, -1, prm.q);
    CongTrans(ph * ph, prm.q - 1, -1, prm.q);
  }

  /** R[0] is -1/N modulo Q, the normalisation of the inverse transform:
      in both table sets R[0] * N is exactly Q - 1 (30 * 256 = 7681 - 1 and
      24 * 512 = 12289 - 1). */
  lemma UntwistScale(pr: Preset)
    ensures var prm := Get(pr); |prm.r| == prm.n >= 1 && Cong(prm.r[0] * prm.n, -1, prm.q)
  {
    var prm := Get(pr);
    if prm.n == 256 {
      Ends256(prm.w, prm.r);
      assert prm.r[0] * prm.n == prm.q - 1;
    } else {
      Ends512(prm.w, prm.r);
      assert prm.r[0] * prm.n == prm.q - 1;
    }
  }

  /** Every preset's buffer lengths meet `LengthsOk`. */
  lemma BufferLengths(pr: Preset)
    ensures LengthsOk(Get(pr))
  {
    match pr
    case O => LengthsO();
    case I => LengthsI();
    case II => LengthsII();
    case III => LengthsIII();
    case IV => LengthsIV();
  }

  lemma LengthsO() ensures LengthsOk(Get(O)) { }
  lemma LengthsI() ensures LengthsOk(Get(I)) { }
  lemma LengthsII() ensures LengthsOk(Get(II)) { }
  lemma LengthsIII() ensures LengthsOk(Get(III)) { }
  lemma LengthsIV() ensures LengthsOk(Get(IV)) { }

  /** The signature buffer holds every field and is a whole number of
      4-byte words; the private and public key buffers hold their fields
      exactly. */
  predicate LengthsOk(prm: Params)
  {
    && 8 * SignatureLength(prm) >= prm.n * (prm.tBits + prm.zBits) + prm.kappa * prm.cidxBits
    && SignatureLength(prm) % 4 == 0
    && 8 * PrivateKeyLength(prm) == prm.n * (prm.fBits + prm.gBits + prm.aBits)
    && 8 * PublicKeyLength(prm) == prm.n * prm.aBits
  }

}
