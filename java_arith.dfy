/** Java's fixed-width integer arithmetic and bit operations, written out on
    unbounded integers. */
module JavaArith {

  const INT_MIN: int := -0x8000_0000
  const INT_MAX: int := 0x7fff_ffff

  type Int32 = x: int | INT_MIN <= x <= INT_MAX

  const TWO_63: int := 0x8000_0000_0000_0000
  const TWO_64: int := 0x1_0000_0000_0000_0000

  function Pow2(n: nat): (r: nat)
    ensures r >= 1
  {
    if n == 0 then 1 else 2 * Pow2(n - 1)
  }

  lemma {:induction false} Pow2Monotonic(a: nat, b: nat)
    requires a <= b
    ensures Pow2(a) <= Pow2(b)
  {
    if a < b {
      Pow2Monotonic(a, b - 1);
    }
  }

  /** Two's-complement wrap-around of a 32-bit `int` result. */
  function Wrap32(x: int): Int32 {
    (x + 0x8000_0000) % 0x1_0000_0000 - 0x8000_0000
  }

  /** Two's-complement wrap-around of a 64-bit `long` result. */
  function Wrap64(x: int): int {
    (x + TWO_63) % TWO_64 - TWO_63
  }

  /** Java's `%`, which truncates toward zero: the remainder takes the sign
      of the dividend. */
  function JavaRem(a: int, b: int): int
    requires b != 0
  {
    if a >= 0 then a % (if b > 0 then b else -b)
    else -((-a) % (if b > 0 then b else -b))
  }

  /** Java's `x << s` on a `long`: only the low six bits of the distance
      count (`s & 63`, which is `s % 64` for Euclidean `%`), and the result
      wraps at 64 bits. */
  function ShiftLeft64(x: int, s: int): int {
    Wrap64(x * Pow2(s % 64))
  }

  /** Java's `x & y` on non-negative operands, bit by bit from the least
      significant end. */
  function And(x: nat, y: nat): nat
    decreases x
  {
    if x == 0 || y == 0 then 0
    else 2 * And(x / 2, y / 2) + (if x % 2 == 1 && y % 2 == 1 then 1 else 0)
  }

  /** The word mask `(1L << s) - 1L`. */
  function Mask(s: int): int {
    Wrap64(ShiftLeft64(1, s) - 1)
  }

  /** `this.maxF = maxF + maxF % 2` with Java's `%` and 32-bit addition. */
  function EvenWordLength(maxF: Int32): Int32 {
    Wrap32(maxF + JavaRem(maxF, 2))
  }

  // ---------------------------------------------------------------------
  // Properties

  lemma Wrap64Identity(x: int)
    requires -TWO_63 <= x < TWO_63
    ensures Wrap64(x) == x
  {
  }

  lemma {:induction false} Pow2Add(a: nat, b: nat)
    ensures Pow2(a + b) == Pow2(a) * Pow2(b)
    decreases a
  {
    if a > 0 {
      Pow2Add(a - 1, b);
    }
  }

  lemma Pow2Of63()
    ensures Pow2(63) == TWO_63
  {
    assert Pow2(16) == 0x1_0000;
    assert Pow2(15) == 0x8000;
    Pow2Add(16, 16);
    Pow2Add(16, 15);
    Pow2Add(32, 31);
  }

  /** At every distance the mask equals 2^(s mod 64) - 1.  At distance 63 the
      shift yields Long.MIN_VALUE and the subtraction wraps to Long.MAX_VALUE,
      which is again 2^63 - 1. */
  lemma {:induction false} MaskValue(s: int)
    ensures Mask(s) == Pow2(s % 64) - 1
  {
    var n := s % 64;
    Pow2Of63();
    if n < 63 {
      Pow2Monotonic(n + 1, 63);
      Wrap64Identity(Pow2(n));
      Wrap64Identity(Pow2(n) - 1);
    } else {
      assert n == 63;
      assert ShiftLeft64(1, s) == Wrap64(TWO_63) == -TWO_63;
      assert Wrap64(-TWO_63 - 1) == TWO_63 - 1;
    }
  }

  lemma ModOfDoubled(x: nat, p: nat)
    requires p >= 1
    ensures x % (2 * p) == 2 * ((x / 2) % p) + x % 2
  {
    var q := x / 2;
    var a := q / p;
    var r := q % p;
    assert q == p * a + r && 0 <= r < p;
    assert x == 2 * q + x % 2;
    assert x == (2 * p) * a + (2 * r + x % 2);
    assert 0 <= 2 * r + x % 2 < 2 * p;
    ModUnique(x, 2 * p, a, 2 * r + x % 2);
  }

  lemma ModUnique(x: int, m: int, a: int, r: int)
    requires m > 0 && x == m * a + r && 0 <= r < m
    ensures x % m == r
  {
    var a' := x / m;
    var r' := x % m;
    assert x == m * a' + r' && 0 <= r' < m;
    if a' > a {
      assert m * a' >= m * (a + 1) by { MulMonotonic(m, a + 1, a'); }
    } else if a' < a {
      assert m * a >= m * (a' + 1) by { MulMonotonic(m, a' + 1, a); }
    }
  }

  lemma MulSucc(a: int, b: int)
    ensures (a + 1) * b == a * b + b
  {
  }

  lemma MulMonotonic(m: int, a: int, b: int)
    requires m > 0 && a <= b
    ensures m * a <= m * b
  {
  }

  /** One bit of `And` against an odd mask. */
  lemma AndOdd(x: nat, z: nat)
    requires x > 0
    ensures And(x, 2 * z + 1) == 2 * And(x / 2, z) + x % 2
  {
    assert (2 * z + 1) / 2 == z && (2 * z + 1) % 2 == 1;
  }

  /** The inductive step of `AndLowOnes`: one more low bit in the mask. */
  lemma AndLowOnesStep(x: nat, z: nat)
    requires x > 0
    requires And(x / 2, z) == (x / 2) % (z + 1)
    ensures And(x, 2 * z + 1) == x % (2 * (z + 1))
  {
    AndOdd(x, z);
    ModOfDoubled(x, z + 1);
  }

  /** ANDing a non-negative value with 2^n - 1 keeps exactly its n low bits. */
  lemma {:induction false} AndLowOnes(x: nat, n: nat)
    ensures And(x, Pow2(n) - 1) == x % Pow2(n)
    decreases n
  {
    if n == 0 {
    } else if x == 0 {
    } else {
      var z := Pow2(n - 1) - 1;
      assert Pow2(n) - 1 == 2 * z + 1 && Pow2(n) == 2 * (z + 1);
      AndLowOnes(x / 2, n - 1);
      AndLowOnesStep(x, z);
    }
  }

  /** The masked word is the word modulo 2^(s mod 64): the mask keeps exactly
      the low `usedBits * wordLength` bits, and the result lies below that
      power of two. */
  lemma MaskKeepsLowBits(x: nat, s: int)
    ensures Mask(s) == Pow2(s % 64) - 1
    ensures And(x, Mask(s)) == x % Pow2(s % 64)
    ensures And(x, Mask(s)) < Pow2(s % 64)
  {
    MaskValue(s);
    AndLowOnes(x, s % 64);
  }

  /** The 32-bit wrap of a shift distance does not change the distance Java
      uses, because 2^32 is a multiple of 64. */
  lemma Wrap32KeepsShiftDistance(s: int)
    ensures Wrap32(s) % 64 == s % 64
  {
    var k := (s + 0x8000_0000) / 0x1_0000_0000;
    assert Wrap32(s) == s - 0x1_0000_0000 * k;
    assert s - 0x1_0000_0000 * k == s + 64 * (-0x400_0000 * k);
  }

  /** The even word length: always even; for non-negative input below
      Integer.MAX_VALUE the least even number not below it; for negative input
      the greatest even number not above it; Integer.MAX_VALUE wraps to
      Integer.MIN_VALUE. */
  lemma EvenWordLengthIsEven(maxF: Int32)
    ensures EvenWordLength(maxF) % 2 == 0
    ensures 0 <= maxF < INT_MAX ==> maxF <= EvenWordLength(maxF) <= maxF + 1
    ensures maxF < 0 ==> maxF - 1 <= EvenWordLength(maxF) <= maxF
    ensures maxF == INT_MAX ==> EvenWordLength(maxF) == INT_MIN
  {
  }
}
