/** Shared integer vocabulary of the C sources: bytes, little-endian fields,
    powers of two, C's truncating division, 32-bit wrap-around and CLAMP. */
module Bytes {

  type byte = x: int | 0 <= x < 256

  datatype Option<T> = None | Some(value: T)

  const U32_MOD: int := 0x1_0000_0000

  /** A value reduced to `uint32_t`, as C arithmetic on unsigned 32-bit operands does. */
  function U32(x: int): (r: int)
    ensures 0 <= r < U32_MOD
    ensures 0 <= x < U32_MOD ==> r == x
  {
    x % U32_MOD
  }

  function Pow2(n: nat): (r: nat)
    ensures r >= 1
  {
    if n == 0 then 1 else 2 * Pow2(n - 1)
  }

  lemma {:induction false} Pow2Add(a: nat, b: nat)
    ensures Pow2(a + b) == Pow2(a) * Pow2(b)
  {
    if a > 0 {
      Pow2Add(a - 1, b);
    }
  }

  lemma {:induction false} Pow2Monotone(a: nat, b: nat)
    requires a <= b
    ensures Pow2(a) <= Pow2(b)
  {
    if a < b {
      Pow2Monotone(a, b - 1);
    }
  }

  /** Quotient and remainder of naturals are natural (stated once, so that
      divisions by a power of two need not be unfolded to see it). */
  lemma DivNonneg(x: nat, m: nat)
    requires m > 0
    ensures x / m >= 0 && x % m >= 0 && x % m < m
    ensures x == x % m + (x / m) * m
  {
  }

  lemma MulAtLeast(k: int, m: int)
    requires k >= 1 && m > 0
    ensures k * m >= m
  {
  }

  /** Division and remainder are determined by any decomposition a == q * m + r with 0 <= r < m. */
  lemma DivModUnique(a: int, m: int, q: int, r: int)
    requires m > 0 && 0 <= r < m && a == q * m + r
    ensures a / m == q && a % m == r
  {
    var q0, r0 := a / m, a % m;
    assert (q - q0) * m == r0 - r;
    if q > q0 {
      MulAtLeast(q - q0, m);
    } else if q < q0 {
      MulAtLeast(q0 - q, m);
    }
  }

  lemma DivBelow(x: nat, a: nat, b: nat)
    requires a > 0 && x < a * b
    ensures x / a < b
  {
    DivModUnique(x, a, x / a, x % a);
    if x / a >= b {
      MulAtLeast(x / a - b + 1, a);
    }
  }

  /** Splitting off the low part of x + P * t where P is a multiple pn * pk of the divisor. */
  lemma SplitLow(x: nat, buffer: nat, p: nat, pn: nat, pk: nat, t: nat)
    requires x == buffer + p * t && p == pn * pk && pn > 0
    ensures x % pn == buffer % pn && x / pn == buffer / pn + pk * t
  {
    var q, r := buffer / pn, buffer % pn;
    assert p * t == pn * (pk * t);
    assert x == (q + pk * t) * pn + r;
    DivModUnique(x, pn, q + pk * t, r);
  }

  lemma DivAtMost(x: nat, m: nat)
    requires m >= 1
    ensures 0 <= x / m <= x
  {
    DivModUnique(x, m, x / m, x % m);
    if x / m > x {
      MulAtLeast(x / m, m);
    }
  }

  lemma DivMonotone(a: nat, b: nat, m: nat)
    requires a <= b && m > 0
    ensures a / m <= b / m
  {
    DivModUnique(a, m, a / m, a % m);
    DivModUnique(b, m, b / m, b % m);
    if a / m > b / m {
      MulAtLeast(a / m - b / m, m);
    }
  }

  /** Adding the same amount to two numbers that agree modulo m keeps them in agreement. */
  lemma ModAddCongruent(x: int, y: int, o: int, m: int)
    requires m > 0 && x % m == y % m
    ensures (x + o) % m == (y + o) % m
  {
    var r := x % m;
    var t := r + o;
    DivModUnique(x + o, m, x / m + t / m, t % m);
    DivModUnique(y + o, m, y / m + t / m, t % m);
  }

  /** Reducing to 32 bits keeps the low 16 bits. */
  lemma LowWordOfU32(x: int)
    ensures U32(x) % 0x10000 == x % 0x10000
  {
    var q := x / U32_MOD;
    var a, r := U32(x) / 0x10000, U32(x) % 0x10000;
    assert U32(x) == a * 0x10000 + r;
    assert x == (q * 0x10000 + a) * 0x10000 + r;
    DivModUnique(x, 0x10000, q * 0x10000 + a, r);
  }

  lemma Regroup(v: int, p0: int, a: int, pt: int, rest: int)
    ensures v + p0 * a + (p0 * pt) * rest == v + p0 * (a + pt * rest)
  {
  }

  /** A nonzero remainder needs a nonzero dividend, and then dividing by 2 or more shrinks it. */
  lemma ModShrinks(x: nat, m: nat)
    requires m >= 2 && x % m >= 1
    ensures x >= 1 && x / m < x
  {
  }

  lemma Pow2Values()
    ensures Pow2(0) == 1 && Pow2(1) == 2 && Pow2(2) == 4 && Pow2(3) == 8 && Pow2(4) == 16
    ensures Pow2(5) == 32 && Pow2(6) == 64 && Pow2(7) == 128 && Pow2(8) == 256
    ensures Pow2(9) == 512 && Pow2(10) == 1024 && Pow2(11) == 2048 && Pow2(12) == 4096
    ensures Pow2(13) == 8192 && Pow2(14) == 16384 && Pow2(15) == 32768 && Pow2(16) == 65536
  {
  }

  lemma Pow2Table(k: nat)
    requires k <= 16
    ensures Pow2(k) == [1, 2, 4, 8, 16, 32, 64, 128, 256, 512, 1024, 2048,
                        4096, 8192, 16384, 32768, 65536][k]
  {
    Pow2Values();
  }

  /** Bit `k` of a non-negative integer. */
  function Bit(x: nat, k: nat): bool {
    (x / Pow2(k)) % 2 == 1
  }

  /** Bit `k` of x / 2 is bit k + 1 of x. */
  lemma BitShift(x: nat, k: nat)
    ensures Bit(x, k + 1) == Bit(x / 2, k)
  {
    var m := Pow2(k);
    var q, r := x / (2 * m), x % (2 * m);
    DivModUnique(x, 2 * m, q, r);
    assert x == (m * q + r / 2) * 2 + r % 2;
    DivModUnique(x, 2, m * q + r / 2, r % 2);
    DivBelow(r, 2, m);
    DivModUnique(x / 2, m, q, r / 2);
  }

  /** `a | b` on non-negative integers. */
  function BitOr(a: nat, b: nat): nat
    decreases a + b
  {
    if a == 0 then b
    else if b == 0 then a
    else 2 * BitOr(a / 2, b / 2) + (if a % 2 == 1 || b % 2 == 1 then 1 else 0)
  }

  /** A bit of `a | b` is set exactly when it is set in a or in b. */
  lemma {:induction false} BitOrBits(a: nat, b: nat, k: nat)
    ensures Bit(BitOr(a, b), k) == (Bit(a, k) || Bit(b, k))
    decreases k
  {
    if a == 0 {
      assert Bit(a, k) == false by { assert 0 / Pow2(k) == 0; }
    } else if b == 0 {
      assert Bit(b, k) == false by { assert 0 / Pow2(k) == 0; }
    } else {
      var r := BitOr(a, b);
      var low := if a % 2 == 1 || b % 2 == 1 then 1 else 0;
      DivModUnique(r, 2, BitOr(a / 2, b / 2), low);
      if k == 0 {
      } else {
        BitShift(r, k - 1);
        BitShift(a, k - 1);
        BitShift(b, k - 1);
        BitOrBits(a / 2, b / 2, k - 1);
      }
    }
  }

  /** Or-ing two values below 2^k stays below 2^k. */
  lemma {:induction false} BitOrBound(a: nat, b: nat, k: nat)
    requires a < Pow2(k) && b < Pow2(k)
    ensures BitOr(a, b) < Pow2(k)
    decreases k
  {
    if a != 0 && b != 0 {
      assert k > 0;
      DivBelow(a, 2, Pow2(k - 1));
      DivBelow(b, 2, Pow2(k - 1));
      BitOrBound(a / 2, b / 2, k - 1);
    }
  }

  /** `x & mask != 0` on a byte. */
  function HasBit(x: byte, mask: bv8): bool {
    (x as bv8) & mask != 0
  }

  /** A value stored into a `uint8_t`: EOF (-1) and any other int keep their low 8 bits. */
  function ToByte(x: int): byte {
    x % 256
  }

  /** Little-endian 16-bit field at offset `i`. */
  function LE16(s: seq<byte>, i: nat): (r: nat)
    requires i + 2 <= |s|
    ensures r < 0x10000
  {
    s[i] as int + 256 * (s[i + 1] as int)
  }

  /** Little-endian 32-bit field at offset `i`. */
  function LE32(s: seq<byte>, i: nat): (r: nat)
    requires i + 4 <= |s|
    ensures r < U32_MOD
  {
    LE16(s, i) + 0x10000 * LE16(s, i + 2)
  }

  /** A sequence of `n` zero bytes. */
  function Zeros(n: nat): (r: seq<byte>)
    ensures |r| == n && forall i :: 0 <= i < n ==> r[i] == 0
  {
    seq(n, _ => 0)
  }

  function Min(a: int, b: int): int {
    if a <= b then a else b
  }

  function Max(a: int, b: int): int {
    if a >= b then a else b
  }

  /** The CLAMP macro: `lo` if below, `hi` if above, otherwise the value. */
  function Clamp(x: int, lo: int, hi: int): (r: int)
    requires lo <= hi
    ensures lo <= r <= hi
    ensures lo <= x <= hi ==> r == x
    ensures x < lo ==> r == lo
    ensures x > hi ==> r == hi
  {
    if x < lo then lo else if x > hi then hi else x
  }

  function Abs(x: int): nat {
    if x < 0 then -x else x
  }

  /** C's `/` on `int`: the quotient is truncated toward zero. */
  function CDiv(a: int, b: int): int
    requires b != 0
  {
    if (a >= 0) == (b > 0) then Abs(a) / Abs(b) else -(Abs(a) / Abs(b))
  }

  /** C's `%` on `int`: the remainder takes the sign of the dividend. */
  function CMod(a: int, b: int): (r: int)
    requires b != 0
    ensures a == CDiv(a, b) * b + r
    ensures Abs(r) < Abs(b)
    ensures a >= 0 ==> r >= 0
    ensures a <= 0 ==> r <= 0
  {
    var q := Abs(a) / Abs(b);
    var m := Abs(a) % Abs(b);
    assert Abs(a) == q * Abs(b) + m;
    if a >= 0 then m else -m
  }
}
