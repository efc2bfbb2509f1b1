/** Integer helpers shared by the model: machine-integer ranges, Rust's
    truncating remainder, powers of two, shifts and congruences. Dafny's
    `%` and `/` are Euclidean; everything that models a Rust `%` on a
    possibly negative operand goes through `RemT`. */
module Arith {

  datatype Option<T> = None | Some(value: T)

  const I32Min: int := -0x8000_0000
  const I32Max: int := 0x7fff_ffff
  const I64Min: int := -0x8000_0000_0000_0000
  const I64Max: int := 0x7fff_ffff_ffff_ffff
  const U64Bound: int := 0x1_0000_0000_0000_0000

  predicate IsI32(x: int) { I32Min <= x <= I32Max }
  predicate IsI64(x: int) { I64Min <= x <= I64Max }

  /** Two's-complement wrap-around of an unbounded integer into i32. */
  function WrapI32(x: int): (r: int)
    ensures IsI32(r)
    ensures (r - x) % 0x1_0000_0000 == 0
    ensures IsI32(x) ==> r == x
  {
    var m := (x - I32Min) % 0x1_0000_0000;
    m + I32Min
  }

  function Abs(x: int): nat { if x < 0 then -x else x }

  function Max(a: int, b: int): int { if a < b then b else a }

  function Min(a: int, b: int): int { if a < b then a else b }

  function Pow2(k: nat): (r: nat)
    ensures r >= 1
  {
    if k == 0 then 1 else 2 * Pow2(k - 1)
  }

  predicate IsPow2(n: int) { exists k: nat {:trigger Pow2(k)} :: k < 64 && Pow2(k) == n }

  /** Logarithm of a power of two, found by halving. */
  function Log2(n: nat): nat
    requires n >= 1
  {
    if n == 1 then 0 else 1 + Log2(n / 2)
  }

  lemma {:induction false} Pow2Add(a: nat, b: nat)
    ensures Pow2(a + b) == Pow2(a) * Pow2(b)
  {
    if a > 0 {
      Pow2Add(a - 1, b);
    }
  }

  lemma {:induction false} Pow2Monotone(a: nat, b: nat)
    requires a <= b
    ensures Pow2(a) <= Pow2(b)
  {
    if a < b {
      Pow2Monotone(a, b - 1);
    }
  }

  lemma {:induction false} Log2OfPow2(k: nat)
    ensures Log2(Pow2(k)) == k
  {
    if k > 0 {
      Log2OfPow2(k - 1);
    }
  }

  function Pow(x: int, e: nat): int
  {
    if e == 0 then 1 else x * Pow(x, e - 1)
  }

  lemma {:induction false} PowAdd(x: int, a: nat, b: nat)
    ensures Pow(x, a + b) == Pow(x, a) * Pow(x, b)
  {
    if a > 0 {
      PowAdd(x, a - 1, b);
      assert Pow(x, a + b) == x * Pow(x, a - 1 + b);
    }
  }

  lemma PowStep(x: int, e: nat)
    ensures Pow(x, e + 1) == Pow(x, e) * x
  {
  }

  /** Arithmetic shift right of a signed integer, as Rust's `>>` on i32:
      rounds toward negative infinity, so the result is the largest r with
      r * 2^k <= a. */
  function Shr(a: int, k: nat): (r: int)
    ensures r * Pow2(k) <= a < r * Pow2(k) + Pow2(k)
  {
    a / Pow2(k)
  }

  /** Rust's `%` on signed integers: the remainder takes the sign of the
      dividend and has magnitude below that of the divisor. */
  function RemT(a: int, b: int): (r: int)
    requires b != 0
    ensures (a - r) % b == 0
    ensures Abs(r) < Abs(b)
    ensures a >= 0 ==> r >= 0
    ensures a <= 0 ==> r <= 0
  {
    var m := Abs(b);
    var r := if a >= 0 then a % m else -((-a) % m);
    RemTDivides(a, b, r);
    r
  }

  lemma RemTDivides(a: int, b: int, r: int)
    requires b != 0
    requires r == if a >= 0 then a % Abs(b) else -((-a) % Abs(b))
    ensures (a - r) % b == 0
  {
    var m := Abs(b);
    if a >= 0 {
      assert a - r == m * (a / m);
      MultipleMod(m, a / m);
      DivisibleByAbs(a - r, b);
    } else {
      assert -(a - r) == m * ((-a) / m);
      MultipleMod(m, (-a) / m);
      DivisibleByAbs(a - r, b);
    }
  }

  /** Whether the low bit of a two's-complement integer is set. */
  predicate Odd(x: int) { x % 2 == 1 }

  /** `a` and `b` are congruent modulo `m`. */
  predicate Cong(a: int, b: int, m: int)
    requires m != 0
  {
    (a - b) % m == 0
  }

  lemma {:induction false} MulMonotone(m: nat, d: nat)
    requires d >= 1
    ensures m * d >= m
  {
    if d > 1 {
      MulMonotone(m, d - 1);
      assert m * d == m * (d - 1) + m;
    }
  }

  /** A nonzero multiple of `m` is at least `m` in magnitude. */
  lemma MulAbsGe(m: int, d: int)
    requires d != 0
    ensures Abs(m * d) >= Abs(m)
  {
    MulMonotone(Abs(m), Abs(d));
    assert Abs(m * d) == Abs(m) * Abs(d);
  }

  lemma MultipleMod(m: int, k: int)
    requires m != 0
    ensures (m * k) % m == 0
  {
    var a := m * k;
    var q := a / m;
    var r := a % m;
    assert a == m * q + r;
    assert m * (k - q) == r;
    if k - q != 0 {
      MulAbsGe(m, k - q);
    }
  }

  lemma DivisibleByAbs(x: int, b: int)
    requires b != 0
    requires (x % Abs(b)) == 0 || (-x) % Abs(b) == 0
    ensures x % b == 0
  {
    if x % Abs(b) == 0 {
      var k := x / Abs(b);
      assert x == Abs(b) * k;
      if b < 0 {
        assert x == b * (-k);
        MultipleMod(b, -k);
      } else {
        MultipleMod(b, k);
      }
    } else {
      var k := (-x) / Abs(b);
      assert -x == Abs(b) * k;
      if b < 0 {
        assert x == b * k;
        MultipleMod(b, k);
      } else {
        assert x == b * (-k);
        MultipleMod(b, -k);
      }
    }
  }

  lemma CongWitness(a: int, b: int, m: int)
    requires m != 0 && Cong(a, b, m)
    ensures a - b == m * ((a - b) / m)
  {
  }

  lemma CongSym(a: int, b: int, m: int)
    requires m != 0 && Cong(a, b, m)
    ensures Cong(b, a, m)
  {
    CongWitness(a, b, m);
    MultipleMod(m, -((a - b) / m));
  }

  lemma CongTrans(a: int, b: int, c: int, m: int)
    requires m != 0 && Cong(a, b, m) && Cong(b, c, m)
    ensures Cong(a, c, m)
  {
    CongWitness(a, b, m);
    CongWitness(b, c, m);
    assert a - c == m * ((a - b) / m + (b - c) / m);
    MultipleMod(m, (a - b) / m + (b - c) / m);
  }

  lemma CongAdd(a: int, b: int, c: int, d: int, m: int)
    requires m != 0 && Cong(a, b, m) && Cong(c, d, m)
    ensures Cong(a + c, b + d, m)
  {
    CongWitness(a, b, m);
    CongWitness(c, d, m);
    assert (a + c) - (b + d) == m * ((a - b) / m + (c - d) / m);
    MultipleMod(m, (a - b) / m + (c - d) / m);
  }

  lemma CongNeg(a: int, b: int, m: int)
    requires m != 0 && Cong(a, b, m)
    ensures Cong(-a, -b, m)
  {
    CongWitness(a, b, m);
    assert -a - -b == m * (-((a - b) / m));
    MultipleMod(m, -((a - b) / m));
  }

  lemma CongMul(a: int, b: int, c: int, d: int, m: int)
    requires m != 0 && Cong(a, b, m) && Cong(c, d, m)
    ensures Cong(a * c, b * d, m)
  {
    CongWitness(a, b, m);
    CongWitness(c, d, m);
    var k := (a - b) / m;
    var l := (c - d) / m;
    calc {
      a * c - b * d;
      a * (c - d) + (a - b) * d;
      a * (m * l) + (m * k) * d;
      m * (a * l + k * d);
    }
    MultipleMod(m, a * l + k * d);
  }

  lemma CongShift(a: int, k: int, m: int)
    requires m != 0
    ensures Cong(a + k * m, a, m)
  {
    assert (a + k * m) - a == m * k;
    MultipleMod(m, k);
  }

  lemma CongMod(a: int, m: int)
    requires m > 0
    ensures Cong(a % m, a, m)
  {
    assert a % m - a == m * (-(a / m));
    MultipleMod(m, -(a / m));
  }

  /** A value congruent to `a` that lies in [0, m) is `a % m`. */
  lemma CongUnique(a: int, r: int, m: int)
    requires m > 0 && Cong(r, a, m) && 0 <= r < m
    ensures r == a % m
  {
    CongMod(a, m);
    CongSym(a % m, a, m);
    CongTrans(r, a, a % m, m);
    CongWitness(r, a % m, m);
    var k := (r - a % m) / m;
    if k != 0 {
      MulAbsGe(m, k);
    }
  }

  /** A congruence modulo m * k holds modulo each factor. */
  lemma CongFactor(a: int, b: int, m: int, k: int)
    requires m != 0 && k != 0 && Cong(a, b, m * k)
    ensures Cong(a, b, m) && Cong(a, b, k)
  {
    CongWitness(a, b, m * k);
    var j := (a - b) / (m * k);
    assert a - b == m * (k * j);
    assert a - b == k * (m * j);
    MultipleMod(m, k * j);
    MultipleMod(k, m * j);
  }

  /** For odd m, congruence modulo m and modulo 2 gives congruence modulo
      2m. */
  lemma CongCombine(a: int, b: int, m: int)
    requires m > 0 && m % 2 == 1 && Cong(a, b, m) && Cong(a, b, 2)
    ensures Cong(a, b, 2 * m)
  {
    CongWitness(a, b, m);
    var j := (a - b) / m;
    var h := m / 2;
    assert m == 2 * h + 1;
    assert a - b == 2 * (h * j) + j;
    if j % 2 == 1 {
      var i := j / 2;
      assert j == 2 * i + 1;
      assert a - b == 2 * (h * j + i) + 1;
      DivModUnique(a - b, 2, h * j + i, 1);
      assert false;
    }
    var i := j / 2;
    assert j == 2 * i;
    assert a - b == (2 * m) * i;
    MultipleMod(2 * m, i);
  }

  /** Quotient and remainder are determined by the division identity. */
  lemma DivModUnique(a: int, m: int, d: int, r: int)
    requires m > 0 && a == m * d + r && 0 <= r < m
    ensures a % m == r && a / m == d
  {
    var d' := a / m;
    var r' := a % m;
    assert m * (d - d') == r' - r;
    if d - d' != 0 {
      MulAbsGe(m, d - d');
    }
  }

  lemma MulSucc(a: int, k: int)
    ensures (a + 1) * k == a * k + k
  {
  }

  /** a * k as a running sum, so that a loop can count in steps of k
      without products. */
  function Times(a: nat, k: int): int
  {
    if a == 0 then 0 else Times(a - 1, k) + k
  }

  lemma TimesStep(a: nat, k: int, d: int)
    requires d == Times(a, k)
    ensures d + k == Times(a + 1, k)
  {
  }

  lemma {:induction false} TimesIsMul(a: nat, k: int)
    ensures Times(a, k) == a * k
  {
    if a > 0 {
      TimesIsMul(a - 1, k);
    }
  }

  lemma MulLe(a: nat, b: nat, c: nat, d: nat)
    requires a <= c && b <= d
    ensures a * b <= c * d
  {
    assert a * b <= c * b by {
      if b > 0 {
        MulMonotone(c - a, b);
        assert (c - a) * b == c * b - a * b;
      }
    }
    assert c * b <= c * d by {
      if c > 0 {
        MulMonotone(d - b, c);
        assert (d - b) * c == c * d - c * b;
      }
    }
  }

  lemma Pow2StrictMonotone(a: nat, b: nat)
    requires a < b
    ensures Pow2(a) < Pow2(b)
  {
    Pow2Monotone(a + 1, b);
  }

  /** A smaller power of two divides a larger one. */
  lemma Pow2Divides(a: nat, b: nat)
    requires a <= b
    ensures Pow2(b) % Pow2(a) == 0
    ensures Pow2(b) / Pow2(a) == Pow2(b - a)
  {
    Pow2Add(a, b - a);
    DivModUnique(Pow2(b), Pow2(a), Pow2(b - a), 0);
  }

  lemma {:induction false} CongPow(a: int, b: int, e: nat, m: int)
    requires m != 0 && Cong(a, b, m)
    ensures Cong(Pow(a, e), Pow(b, e), m)
  {
    if e > 0 {
      CongPow(a, b, e - 1, m);
      CongMul(a, b, Pow(a, e - 1), Pow(b, e - 1), m);
    }
  }

  /** Two factors of x at once. */
  lemma PowTwoSteps(x: int, e: nat)
    requires e >= 2
    ensures Pow(x, e) == (x * x) * Pow(x, e - 2)
  {
    var a := Pow(x, e - 2);
    assert Pow(x, e) == x * (x * a);
  }

  /** Square-and-multiply splitting of an exponent. */
  lemma {:induction false} PowSplit(x: int, e: nat)
    ensures Pow(x, e) == Pow(x, e % 2) * Pow(x * x, e / 2)
  {
    if e >= 2 {
      PowSplit(x, e - 2);
      assert (e - 2) % 2 == e % 2 && (e - 2) / 2 == e / 2 - 1;
      var y, p, b := x * x, Pow(x, e % 2), Pow(x * x, e / 2 - 1);
      PowTwoSteps(x, e);
      assert Pow(x, e) == y * (p * b);
      assert Pow(y, e / 2) == y * b;
      assert y * (p * b) == p * (y * b);
    }
  }

}
