/** Fixed-width integers and the saturating arithmetic of saturated.h, with the
    rounding multiply and the shifts of gsm0610_local.h.

    Machine integers are mathematical integers in a bounded subset type.  Every
    function returning `int16` therefore also proves that the final C cast is
    lossless, except where `Wrap16` models a cast that may drop high bits.
    A right shift of a signed value is division by a power of two: Dafny rounds
    towards minus infinity for a positive divisor, as the arithmetic shift does. */
module Saturated {

  type int16 = x: int | -0x8000 <= x <= 0x7FFF
  type int32 = x: int | -0x8000_0000 <= x <= 0x7FFF_FFFF
  type uint8 = x: int | 0 <= x <= 0xFF

  /** The cast `(int16_t) x`: keep the low sixteen bits, as two's complement. */
  function Wrap16(x: int): int16 {
    (x + 0x8000) % 0x1_0000 - 0x8000
  }

  /** The cast `(int32_t) x`. */
  function Wrap32(x: int): int32 {
    (x + 0x8000_0000) % 0x1_0000_0000 - 0x8000_0000
  }

  /** Accumulating with 32-bit wrap-around loses only multiples of 2^32. */
  lemma WrapAccumulate(y: int, exact: int, term: int)
    requires Wrap32(exact) == y
    ensures Wrap32(y + term) == Wrap32(exact + term)
  {
    var q := (exact + 0x8000_0000) / 0x1_0000_0000;
    assert exact == y + q * 0x1_0000_0000;
    WrapPeriodic(y + term, q);
  }

  lemma WrapPeriodic(x: int, q: int)
    ensures Wrap32(x + q * 0x1_0000_0000) == Wrap32(x)
  {
    var a := x + 0x8000_0000;
    var m := 0x1_0000_0000;
    assert (a + q * m) / m == a / m + q;
  }

  function Abs(x: int): (r: int)
    ensures r >= 0
  {
    if x < 0 then -x else x
  }

  function Saturate(amp: int): int16 {
    if amp > 0x7FFF then 0x7FFF else if amp < -0x8000 then -0x8000 else amp
  }

  function Saturate15(amp: int): int16 {
    if amp > 16383 then 16383 else if amp < -16384 then -16384 else amp
  }

  /** `saturate` exactly as coded: cast, compare, then pick a limit. */
  function SaturateByCast(amp: int32): (r: int16)
    ensures r == Saturate(amp)
  {
    var amp16 := Wrap16(amp);
    if amp == amp16 then amp16
    else if amp > 0x7FFF then 0x7FFF
    else -0x8000
  }

  /** Saturation is the nearest representable value, and never widens a distance
      to a value that is representable. */
  lemma SaturateIsNearest(x: int, y: int16)
    ensures Abs(x - Saturate(x)) <= Abs(x - y)
    ensures Abs(Saturate(x) - y) <= Abs(x - y)
  {
  }

  lemma Saturate15IsNearest(x: int, y: int)
    requires -16384 <= y <= 16383
    ensures Abs(Saturate15(x) - y) <= Abs(x - y)
  {
  }

  function Add16(a: int16, b: int16): int16 {
    Saturate(a + b)
  }

  function Sub16(a: int16, b: int16): int16 {
    Saturate(a - b)
  }

  function Abs16(a: int16): (r: int16)
    ensures 0 <= r
  {
    if a == -0x8000 then 0x7FFF else Abs(a)
  }

  function Clamp32(x: int): int32 {
    if x > 0x7FFF_FFFF then 0x7FFF_FFFF else if x < -0x8000_0000 then -0x8000_0000 else x
  }

  /** `saturated_add32` through 32-bit unsigned sums, as the portable branch does it. */
  function Add32(a: int32, b: int32): (r: int32)
    ensures r == Clamp32(a + b)
  {
    if a < 0 then
      if b >= 0 then a + b
      else
        var A := (-(a + 1) + -(b + 1)) % 0x1_0000_0000;
        if A >= 0x7FFF_FFFF then -0x8000_0000 else -A - 2
    else if b <= 0 then a + b
    else
      var A := (a + b) % 0x1_0000_0000;
      if A > 0x7FFF_FFFF then 0x7FFF_FFFF else A
  }

  /** The exact product of two integers, under a name that proofs can hide where only
      the operands matter. */
  function Product(a: int, b: int): int {
    a * b
  }

  lemma ProductIsTimes(a: int, b: int)
    ensures Product(a, b) == a * b
  {
  }

  lemma TimesBounds(a: int, b: int, A: int, B: int)
    requires -A <= a <= A && -B <= b <= B
    ensures -(A * B) <= a * b <= A * B
  {
    assert (A - a) * (B + b) >= 0 && (A + a) * (B - b) >= 0;
    assert (A - a) * (B - b) >= 0 && (A + a) * (B + b) >= 0;
  }

  lemma ProductBounds(a: int, b: int, A: int, B: int)
    requires -A <= a <= A && -B <= b <= B
    ensures -(A * B) <= Product(a, b) <= A * B
    ensures Product(a, b) == Product(b, a)
  {
    ProductIsTimes(a, b);
    ProductIsTimes(b, a);
    TimesBounds(a, b, A, B);
  }

  /** The rounded product `(a*b + 0x4000) >> 15`. */
  function RoundMul(a: int, b: int): int {
    (Product(a, b) + 0x4000) / 0x8000
  }

  /** Scaling by a fraction of magnitude below one never enlarges. */
  lemma RoundMulBounds(a: int, b: int)
    requires -0x7FFF <= a <= 0x7FFF
    ensures -Abs(b) <= RoundMul(a, b) <= Abs(b)
    ensures Abs(b) <= 0x8000 ==> -0x7FFF <= RoundMul(a, b) <= 0x7FFF
    ensures RoundMul(a, b) == RoundMul(b, a)
  {
    ProductBounds(a, b, 0x7FFF, Abs(b));
  }

  function MultR(a: int16, b: int16): int16 {
    if a == -0x8000 && b == -0x8000 then 0x7FFF
    else if a != -0x8000 then RoundMulBounds(a, b); RoundMul(a, b)
    else RoundMulBounds(b, a); RoundMul(a, b)
  }

  /** `saturated_mul16`: the truncated product. */
  function Mul16(a: int16, b: int16): int16 {
    if a == -0x8000 && b == -0x8000 then 0x7FFF
    else if a != -0x8000 then ProductBounds(a, b, 0x7FFF, 0x8000); Product(a, b) / 0x8000
    else ProductBounds(a, b, 0x8000, 0x7FFF); Product(a, b) / 0x8000
  }

  // ---- shifts by a variable amount ----

  /** `x << n` on unbounded integers. */
  function Shl(x: int, n: nat): int
    decreases n
  {
    if n == 0 then x else Shl(2 * x, n - 1)
  }

  /** `x >> n`, arithmetic. */
  function Shr(x: int, n: nat): int
    decreases n
  {
    if n == 0 then x else Shr(x / 2, n - 1)
  }

  lemma {:induction false} ShlIsLinear(x: int, y: int, n: nat)
    ensures Shl(x + y, n) == Shl(x, n) + Shl(y, n)
    ensures Shl(-x, n) == -Shl(x, n)
    ensures Shl(0, n) == 0
    decreases n
  {
    if n > 0 {
      ShlIsLinear(2 * x, 2 * y, n - 1);
      assert 2 * (x + y) == 2 * x + 2 * y;
    }
  }

  lemma {:induction false} ShlIsMonotone(x: int, y: int, n: nat)
    requires x <= y
    ensures Shl(x, n) <= Shl(y, n)
    decreases n
  {
    if n > 0 { ShlIsMonotone(2 * x, 2 * y, n - 1); }
  }

  /** A right shift undoes a left shift, and otherwise rounds down. */
  lemma {:induction false} ShrIsFloor(x: int, n: nat, q: int)
    ensures Shr(x, n) == q <==> Shl(q, n) <= x < Shl(q + 1, n)
    decreases n
  {
    if n > 0 {
      ShrIsFloor(x / 2, n - 1, q);
      ShlTwice(q, n);
      ShlTwice(q + 1, n);
    }
  }

  lemma {:induction false} ShrFits(x: int16, n: nat)
    ensures -0x8000 <= Shr(x, n) <= 0x7FFF
    decreases n
  {
    if n > 0 { ShrFits(x / 2, n - 1); }
  }

  lemma {:induction false} ShlTwice(x: int, n: nat)
    requires n > 0
    ensures Shl(x, n) == 2 * Shl(x, n - 1)
    decreases n
  {
    if n > 1 { ShlTwice(2 * x, n - 1); }
  }

  lemma {:induction false} ShlGrows(x: int, n: nat)
    requires x >= 0
    ensures Shl(x, n) >= x
    decreases n
  {
    if n > 0 { ShlGrows(2 * x, n - 1); }
  }
}
