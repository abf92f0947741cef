/** `top_bit` of bit_operations.h (portable branch) and `gsm0610_norm` of
    gsm0610_lpc.c, which is built on it. */
module BitOperations {
  import opened Saturated

  /** Position of the highest set bit of a number; -1 for zero. */
  function TopBitOf(y: nat): (r: int)
    ensures -1 <= r
  {
    if y == 0 then -1 else 1 + TopBitOf(y / 2)
  }

  lemma {:induction false} TopBitOfRange(y: nat)
    requires y > 0
    ensures TopBitOf(y) >= 0
    ensures Shl(1, TopBitOf(y)) <= y < Shl(2, TopBitOf(y))
  {
    if y > 1 {
      TopBitOfRange(y / 2);
      ShlTwice(1, TopBitOf(y));
      ShlTwice(2, TopBitOf(y));
    }
  }

  /** No other position has the value between its power of two and the next. */
  lemma {:induction false} TopBitOfIsUnique(y: nat, n: nat)
    requires Shl(1, n) <= y < Shl(2, n)
    ensures TopBitOf(y) == n
    decreases n
  {
    if n == 0 {
      assert TopBitOf(1) == 1 + TopBitOf(0);
    } else {
      ShlTwice(1, n);
      ShlTwice(2, n);
      ShlGrows(1, n - 1);
      TopBitOfIsUnique(y / 2, n - 1);
    }
  }

  lemma {:induction false} ShlOrder(m: nat, n: nat)
    requires m <= n
    ensures Shl(1, m) <= Shl(1, n)
    ensures m > 0 ==> Shl(1, m) == Shl(2, m - 1)
    decreases n
  {
    if m < n {
      ShlOrder(m, n - 1);
      ShlTwice(1, n);
      ShlGrows(1, n - 1);
    }
  }

  const POWERS: seq<int> := [
    0x1, 0x2, 0x4, 0x8,
    0x10, 0x20, 0x40, 0x80,
    0x100, 0x200, 0x400, 0x800,
    0x1000, 0x2000, 0x4000, 0x8000,
    0x10000, 0x20000, 0x40000, 0x80000,
    0x100000, 0x200000, 0x400000, 0x800000,
    0x1000000, 0x2000000, 0x4000000, 0x8000000,
    0x10000000, 0x20000000, 0x40000000, 0x80000000, 0x100000000]

  lemma {:induction false} PowersOfTwo(n: nat)
    requires n < 32
    ensures Shl(1, n) == POWERS[n] && Shl(2, n) == POWERS[n + 1]
  {
    if n > 0 {
      PowersOfTwo(n - 1);
      ShlTwice(1, n);
      ShlTwice(2, n);
    }
  }

  // The four lemmas below read eight bit positions each as a range of numbers.

  lemma TopBitInLowByte(word: bv32)
    ensures word >> 0 == 1 ==> 0x1 <= word as int < 0x2
    ensures word >> 1 == 1 ==> 0x2 <= word as int < 0x4
    ensures word >> 2 == 1 ==> 0x4 <= word as int < 0x8
    ensures word >> 3 == 1 ==> 0x8 <= word as int < 0x10
    ensures word >> 4 == 1 ==> 0x10 <= word as int < 0x20
    ensures word >> 5 == 1 ==> 0x20 <= word as int < 0x40
    ensures word >> 6 == 1 ==> 0x40 <= word as int < 0x80
    ensures word >> 7 == 1 ==> 0x80 <= word as int < 0x100
  {
  }

  lemma TopBitInSecondByte(word: bv32)
    ensures word >> 8 == 1 ==> 0x100 <= word as int < 0x200
    ensures word >> 9 == 1 ==> 0x200 <= word as int < 0x400
    ensures word >> 10 == 1 ==> 0x400 <= word as int < 0x800
    ensures word >> 11 == 1 ==> 0x800 <= word as int < 0x1000
    ensures word >> 12 == 1 ==> 0x1000 <= word as int < 0x2000
    ensures word >> 13 == 1 ==> 0x2000 <= word as int < 0x4000
    ensures word >> 14 == 1 ==> 0x4000 <= word as int < 0x8000
    ensures word >> 15 == 1 ==> 0x8000 <= word as int < 0x10000
  {
  }

  lemma TopBitInThirdByte(word: bv32)
    ensures word >> 16 == 1 ==> 0x10000 <= word as int < 0x20000
    ensures word >> 17 == 1 ==> 0x20000 <= word as int < 0x40000
    ensures word >> 18 == 1 ==> 0x40000 <= word as int < 0x80000
    ensures word >> 19 == 1 ==> 0x80000 <= word as int < 0x100000
    ensures word >> 20 == 1 ==> 0x100000 <= word as int < 0x200000
    ensures word >> 21 == 1 ==> 0x200000 <= word as int < 0x400000
    ensures word >> 22 == 1 ==> 0x400000 <= word as int < 0x800000
    ensures word >> 23 == 1 ==> 0x800000 <= word as int < 0x1000000
  {
  }

  lemma TopBitInHighByte(word: bv32)
    ensures word >> 24 == 1 ==> 0x1000000 <= word as int < 0x2000000
    ensures word >> 25 == 1 ==> 0x2000000 <= word as int < 0x4000000
    ensures word >> 26 == 1 ==> 0x4000000 <= word as int < 0x8000000
    ensures word >> 27 == 1 ==> 0x8000000 <= word as int < 0x10000000
    ensures word >> 28 == 1 ==> 0x10000000 <= word as int < 0x20000000
    ensures word >> 29 == 1 ==> 0x20000000 <= word as int < 0x40000000
    ensures word >> 30 == 1 ==> 0x40000000 <= word as int < 0x80000000
    ensures word >> 31 == 1 ==> 0x80000000 <= word as int < 0x100000000
  {
  }

  // And the four below do the same when the position is a variable.

  lemma ValueInLowByte(word: bv32, res: nat)
    requires 0 <= res < 8 && word >> res == 1
    ensures POWERS[res] <= word as int < POWERS[res + 1]
  {
    assert (res == 0 ==> word >> 0 == 1) && (res == 1 ==> word >> 1 == 1);
    assert (res == 2 ==> word >> 2 == 1) && (res == 3 ==> word >> 3 == 1);
    assert (res == 4 ==> word >> 4 == 1) && (res == 5 ==> word >> 5 == 1);
    assert (res == 6 ==> word >> 6 == 1) && (res == 7 ==> word >> 7 == 1);
    TopBitInLowByte(word);
  }

  lemma ValueInSecondByte(word: bv32, res: nat)
    requires 8 <= res < 16 && word >> res == 1
    ensures POWERS[res] <= word as int < POWERS[res + 1]
  {
    assert (res == 8 ==> word >> 8 == 1) && (res == 9 ==> word >> 9 == 1);
    assert (res == 10 ==> word >> 10 == 1) && (res == 11 ==> word >> 11 == 1);
    assert (res == 12 ==> word >> 12 == 1) && (res == 13 ==> word >> 13 == 1);
    assert (res == 14 ==> word >> 14 == 1) && (res == 15 ==> word >> 15 == 1);
    TopBitInSecondByte(word);
  }

  lemma ValueInThirdByte(word: bv32, res: nat)
    requires 16 <= res < 24 && word >> res == 1
    ensures POWERS[res] <= word as int < POWERS[res + 1]
  {
    assert (res == 16 ==> word >> 16 == 1) && (res == 17 ==> word >> 17 == 1);
    assert (res == 18 ==> word >> 18 == 1) && (res == 19 ==> word >> 19 == 1);
    assert (res == 20 ==> word >> 20 == 1) && (res == 21 ==> word >> 21 == 1);
    assert (res == 22 ==> word >> 22 == 1) && (res == 23 ==> word >> 23 == 1);
    TopBitInThirdByte(word);
  }

  lemma ValueInHighByte(word: bv32, res: nat)
    requires 24 <= res < 32 && word >> res == 1
    ensures POWERS[res] <= word as int < POWERS[res + 1]
  {
    assert (res == 24 ==> word >> 24 == 1) && (res == 25 ==> word >> 25 == 1);
    assert (res == 26 ==> word >> 26 == 1) && (res == 27 ==> word >> 27 == 1);
    assert (res == 28 ==> word >> 28 == 1) && (res == 29 ==> word >> 29 == 1);
    assert (res == 30 ==> word >> 30 == 1) && (res == 31 ==> word >> 31 == 1);
    TopBitInHighByte(word);
  }

  lemma TopBitValue(word: bv32, res: nat)
    requires res < 32 && word >> res == 1
    ensures POWERS[res] <= word as int < POWERS[res + 1]
  {
    if res < 8 { ValueInLowByte(word, res); }
    else if res < 16 { ValueInSecondByte(word, res); }
    else if res < 24 { ValueInThirdByte(word, res); }
    else { ValueInHighByte(word, res); }
  }

  /** `top_bit`, portable branch: five masking steps, each halving the search. */
  method TopBit(word: bv32) returns (res: int)
    ensures res == TopBitOf(word as int)
  {
    res := TopBitByMasks(word);
    if word != 0 {
      TopBitValue(word, res);
      PowersOfTwo(res);
      TopBitOfIsUnique(word as int, res);
    }
  }

  method TopBitByMasks(word: bv32) returns (res: int)
    ensures word == 0 ==> res == -1
    ensures word != 0 ==> 0 <= res < 32 && word >> res == 1
  {
    if word == 0 { return -1; }
    var bits := word;
    res := 0;
    if bits & 0xFFFF_0000 != 0 { bits := bits & 0xFFFF_0000; res := res + 16; }
    if bits & 0xFF00_FF00 != 0 { bits := bits & 0xFF00_FF00; res := res + 8; }
    if bits & 0xF0F0_F0F0 != 0 { bits := bits & 0xF0F0_F0F0; res := res + 4; }
    if bits & 0xCCCC_CCCC != 0 { bits := bits & 0xCCCC_CCCC; res := res + 2; }
    if bits & 0xAAAA_AAAA != 0 { bits := bits & 0xAAAA_AAAA; res := res + 1; }
  }

  // ---- normalisation ----

  lemma {:induction false} ShlCompose(x: int, a: nat, b: nat)
    ensures Shl(Shl(x, a), b) == Shl(x, a + b)
    decreases a
  {
    if a > 0 { ShlCompose(2 * x, a - 1, b); }
  }

  /** Shifting by the distance to bit 30 normalises a value, and one more than it. */
  lemma NormalisedByTopBit(y: nat)
    requires 0 < y <= 0x7FFF_FFFF
    ensures var top := TopBitOf(y);
            0 <= top <= 30 &&
            0x4000_0000 <= Shl(y, 30 - top) <= 0x7FFF_FFFF &&
            0x4000_0000 < Shl(y + 1, 30 - top) <= 0x8000_0000
  {
    TopBitOfRange(y);
    var top := TopBitOf(y);
    PowersOfTwo(30);
    PowersOfTwo(31);
    if top > 30 {
      ShlOrder(31, top);
      assert false;
    }
    var n := 30 - top;
    ShlCompose(1, top, n);
    ShlCompose(2, top, n);
    ShlIsMonotone(Shl(1, top), y, n);
    ShlIsMonotone(y + 1, Shl(2, top), n);
    ShlIsLinear(y, 1, n);
    ShlGrows(1, n);
  }

  /** `gsm0610_norm`: the left shifts that bring a value into its top binary octave. */
  function Gsm0610Norm(x: int32): (n: int16)
    requires x != 0
    ensures 0 <= n <= 31
    ensures x > 0 ==> n <= 30 && 0x4000_0000 <= Shl(x, n) <= 0x7FFF_FFFF
    ensures x < 0 ==> -0x8000_0000 <= Shl(x, n) <= -0x4000_0000
  {
    if x < 0 then
      if x <= -0x4000_0000 then 0
      else if x == -1 then
        PowersOfTwo(31); ShlIsLinear(1, 0, 31);
        30 - TopBitOf(-x - 1)
      else
        NormalisedByTopBit(-x - 1); ShlIsLinear(-x, 0, 30 - TopBitOf(-x - 1));
        30 - TopBitOf(-x - 1)
    else
      NormalisedByTopBit(x);
      30 - TopBitOf(x)
  }
}
