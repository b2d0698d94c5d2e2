/**
 * The few Go operators on bytes and signed integers that the L3GD20H driver
 * relies on, stated exactly: the `int8(b)` reinterpretation of a byte, the
 * left shift of a signed int, and the bitwise `|` of two signed ints.
 *
 * Go's `int` is a 64-bit two's-complement integer.  The bitwise OR below is
 * defined on unbounded integers in their (infinite) two's-complement form;
 * on operands of the 64-bit range it agrees with Go's `|`, because the 64-bit
 * representation is a truncation of the infinite one.
 */
module GoOps {

  type Byte = bv8

  /** Bit `i` (0 = least significant) of a byte. */
  predicate Bit(v: Byte, i: nat)
    requires i < 8
  {
    (v >> i) & 1 == 1
  }

  /** Go's `int(int8(b))`: the byte's bits read as an 8-bit two's-complement value. */
  function Int8(b: Byte): (r: int)
    ensures -128 <= r < 128
    ensures r % 256 == b as int
    ensures r < 0 <==> Bit(b, 7)
  {
    if b < 0x80 then b as int else b as int - 256
  }

  /** Go's `byte(x)` conversion: keeps the low eight bits of `x`. */
  function ToByte(x: int): (b: Byte)
    ensures 0 <= x < 256 ==> b as int == x
  {
    (x % 256) as Byte
  }

  function Pow2(k: nat): (p: nat)
    ensures p >= 1
  {
    if k == 0 then 1 else 2 * Pow2(k - 1)
  }

  /** Go's `x << k` on a signed int, without the 64-bit wrap-around: the low k bits are clear and no bit is lost. */
  function ShiftLeft(x: int, k: nat): (r: int)
    ensures r % Pow2(k) == 0
    ensures r / Pow2(k) == x
  {
    MultipleOf(x, Pow2(k));
    x * Pow2(k)
  }

  /** `x * p` divided by `p` leaves `x` and no remainder. */
  lemma MultipleOf(x: int, p: int)
    requires p > 0
    ensures (x * p) % p == 0 && (x * p) / p == x
  {
    var q, r := (x * p) / p, (x * p) % p;
    assert p * (x - q) == r;
    if x - q >= 1 {
      MulAtLeastOnce(p, x - q);
    } else if x - q <= -1 {
      MulAtLeastOnce(p, q - x);
    }
  }

  lemma MulAtLeastOnce(p: int, d: int)
    requires p > 0 && d >= 1
    ensures p * d >= p
  {
  }

  function Abs(x: int): nat
  {
    if x < 0 then -x else x
  }

  /**
   * Go's `a | b` on signed integers: the bitwise OR of the two's-complement
   * representations.  `a / 2` and `a % 2` are floor division and the
   * non-negative remainder, so they peel off the lowest bit of a negative
   * number as well as of a positive one; 0 and -1 are the all-zeros and
   * all-ones patterns.
   */
  function Or(a: int, b: int): (r: int)
    ensures r < 0 <==> a < 0 || b < 0
    ensures 0 <= a && 0 <= b ==> a <= r && b <= r && r <= a + b
    decreases Abs(a) + Abs(b)
  {
    if a == 0 then b
    else if a == -1 || b == -1 then -1
    else if b == 0 then a
    else 2 * Or(a / 2, b / 2) + (if a % 2 == 1 || b % 2 == 1 then 1 else 0)
  }

  /** ORing a value below 2^k into a multiple of 2^k just adds it. */
  lemma {:induction false} OrIntoClearLowBits(h: int, l: int, k: nat)
    requires 0 <= l < Pow2(k)
    ensures Or(h * Pow2(k), l) == h * Pow2(k) + l
  {
    var a := h * Pow2(k);
    if k == 0 {
      assert l == 0;
    } else if a != 0 && l != 0 {
      var p := Pow2(k - 1);
      assert a == 2 * (h * p);
      assert a / 2 == h * p && a % 2 == 0;
      assert 0 <= l / 2 < p;
      OrIntoClearLowBits(h, l / 2, k - 1);
      assert Or(a, l) == 2 * (h * p + l / 2) + l % 2;
    }
  }

  /**
   * ORing a negative value of at least -2^k into a multiple of 2^k gives that
   * negative value back: its sign extension sets every bit from k upwards.
   */
  lemma {:induction false} OrNegativeSwallows(h: int, l: int, k: nat)
    requires -(Pow2(k) as int) <= l < 0
    ensures Or(h * Pow2(k), l) == l
    decreases k
  {
    var a := h * Pow2(k);
    if k == 0 {
      assert l == -1;
    } else if a != 0 && l != -1 {
      var p := Pow2(k - 1);
      assert a == 2 * (h * p);
      assert a / 2 == h * p && a % 2 == 0;
      assert -(p as int) <= l / 2 < 0;
      OrNegativeSwallows(h, l / 2, k - 1);
      assert Or(a, l) == 2 * (l / 2) + l % 2;
    }
  }
}
