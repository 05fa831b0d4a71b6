/** Fixed-width integer conversions and the bitwise OR used by the chip
    emulation.  The emulation is written in C++ over `uint8_t`,
    `unsigned short`, `short` and `int`; each implicit truncation of the
    original is written out here with one of these conversions. */
module Bits {

  /** An `uint8_t` value. */
  type Byte = x: int | 0 <= x < 0x100

  /** An `unsigned short` value (16 bits). */
  type UShort = x: int | 0 <= x < 0x1_0000

  /** Conversion of an `int` to `uint8_t`: keep the low 8 bits. */
  function ToByte(x: int): (r: Byte)
    ensures 0 <= x < 0x100 ==> r == x
  {
    x % 0x100
  }

  /** Conversion of an `int` to `unsigned short`: keep the low 16 bits. */
  function ToUShort(x: int): (r: UShort)
    ensures 0 <= x < 0x1_0000 ==> r == x
  {
    x % 0x1_0000
  }

  /** Conversion of an `int` to `short`: two's complement of the low 16 bits. */
  function ToShort(x: int): (r: int)
    ensures -0x8000 <= r < 0x8000
    ensures (r - x) % 0x1_0000 == 0
  {
    var m := x % 0x1_0000;
    if m < 0x8000 then m else m - 0x1_0000
  }

  /** Euclidean division is unique: a quotient and a remainder in range
      are the quotient and the remainder. */
  lemma DivMod(x: int, d: int, q: int, r: int)
    requires d > 0 && 0 <= r < d && x == d * q + r
    ensures x / d == q && x % d == r
  {
    var q', r' := x / d, x % d;
    assert x == d * q' + r';
    if q' > q {
      MulMono(d, q + 1, q');
    } else if q' < q {
      MulMono(d, q' + 1, q);
    }
  }

  lemma MulMono(d: int, a: int, b: int)
    requires d > 0 && a <= b
    ensures d * a <= d * b
  {
    assert d * b == d * a + d * (b - a);
  }

  function Pow2(k: nat): (r: nat)
    ensures r >= 1
  {
    if k == 0 then 1 else 2 * Pow2(k - 1)
  }

  /** Bitwise OR of two non-negative integers, C's `|`. */
  function Or(a: nat, b: nat): (r: nat)
    ensures a <= r && b <= r
    ensures r <= a + b
    decreases a + b
  {
    if a == 0 then b
    else if b == 0 then a
    else 2 * Or(a / 2, b / 2) + (if a % 2 == 1 || b % 2 == 1 then 1 else 0)
  }

  /** When every bit of `a` lies below bit `k` and `b` is a multiple of
      `2^k`, `a | b` is `a + b`. */
  lemma {:induction false} OrDisjoint(a: nat, m: nat, k: nat)
    requires a < Pow2(k)
    ensures Or(a, m * Pow2(k)) == a + m * Pow2(k)
  {
    var b := m * Pow2(k);
    if a == 0 || m == 0 {
    } else {
      var p := Pow2(k - 1);
      var mp := m * p;
      assert b == 2 * mp;
      MulMono(p, 1, m);
      DivMod(b, 2, mp, 0);
      DivMod(a, 2, a / 2, a % 2);
      OrDisjoint(a / 2, m, k - 1);
      OrStep(a, b);
    }
  }

  /** One step of the recursion of `Or` on two non-zero operands. */
  lemma OrStep(a: nat, b: nat)
    requires a > 0 && b > 0
    ensures Or(a, b) == 2 * Or(a / 2, b / 2) + (if a % 2 == 1 || b % 2 == 1 then 1 else 0)
  {
  }

  lemma {:induction false} OrCommutes(a: nat, b: nat)
    ensures Or(a, b) == Or(b, a)
    decreases a + b
  {
    if a != 0 && b != 0 {
      OrCommutes(a / 2, b / 2);
    }
  }
}
