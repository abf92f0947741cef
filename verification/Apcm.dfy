/** The block-adaptive quantizer of the RPE samples, and its inverse
    (gsm0610_rpe.c, sections 4.2.15 and 4.2.16 of GSM 06.10). */
module Apcm {
  import opened Saturated
  import opened BitOperations
  import opened Autocorrelation

  const GSM_NRFAC: seq<int16> := [29128, 26215, 23832, 21846, 20165, 18725, 17476, 16384]
  const GSM_FAC: seq<int16> := [18431, 20479, 22527, 24575, 26623, 28671, 30719, 32767]

  // ---- shifts of gsm0610_local.h ----

  function GsmAsr(a: int16, n: int): int16
  {
    if n >= 16 then (if a < 0 then -1 else 0)
    else if n <= -16 then 0
    else if n < 0 then Wrap16(Shl(a, -n))
    else Wrap16(Shr(a, n))
  }

  function GsmAsl(a: int16, n: int): int16 {
    if n >= 16 then 0
    else if n <= -16 then (if a < 0 then -1 else 0)
    else if n < 0 then GsmAsr(a, -n)
    else Wrap16(Shl(a, n))
  }

  // ---- the block maximum ----

  /** Exponent of the block maximum: the significant bits above bit 8. */
  function ExpOf(xmax: int16): (e: nat)
    requires 0 <= xmax
    ensures e <= 6
    ensures e == 0 ==> xmax < 512
    ensures e > 0 ==> 8 <= Shr(xmax, e + 5)
    ensures 0 <= Shr(xmax, e + 5) <= 15
  {
    ExpRange(xmax);
    TopBitOf(xmax / 512) + 1
  }

  lemma ExpRange(xmax: int16)
    requires 0 <= xmax
    ensures var e := TopBitOf(xmax / 512) + 1;
            0 <= e <= 6 && (e == 0 ==> xmax < 512) && (e > 0 ==> 8 <= Shr(xmax, e + 5)) && 0 <= Shr(xmax, e + 5) <= 15
  {
    var v := xmax / 512;
    assert v < 64;
    TopBitSmall(v);
    ShrByNine(xmax, TopBitOf(v) + 1);
  }

  lemma TopBitSmall(v: nat)
    requires v < 64
    ensures TopBitOf(v)
         == (if v == 0 then -1 else if v < 2 then 0 else if v < 4 then 1 else if v < 8 then 2
             else if v < 16 then 3 else if v < 32 then 4 else 5)
  {
    TopBitHalved(v);
    TopBitHalved(v / 2);
    TopBitHalved(v / 4);
    TopBitHalved(v / 8);
    TopBitHalved(v / 16);
    TopBitHalved(v / 32);
  }

  lemma TopBitHalved(v: nat)
    ensures TopBitOf(v) == if v == 0 then -1 else 1 + TopBitOf(v / 2)
  {
  }

  lemma ShrByNine(x: int, e: nat)
    requires e <= 6
    ensures Shr(x, e + 5) == (if e == 0 then x / 32 else if e == 1 then x / 64 else if e == 2 then x / 128
                              else if e == 3 then x / 256 else if e == 4 then x / 512 else if e == 5 then x / 1024
                              else x / 2048)
  {
    ShrOnce(x, e + 5);
    ShrOnce(x / 2, e + 4);
    ShrOnce(x / 4, e + 3);
    ShrOnce(x / 8, e + 2);
    ShrOnce(x / 16, e + 1);
    if e >= 1 { ShrOnce(x / 32, e); }
    if e >= 2 { ShrOnce(x / 64, e - 1); }
    if e >= 3 { ShrOnce(x / 128, e - 2); }
    if e >= 4 { ShrOnce(x / 256, e - 3); }
    if e >= 5 { ShrOnce(x / 512, e - 4); }
    if e >= 6 { ShrOnce(x / 1024, e - 5); }
  }

  lemma ShrOnce(x: int, n: nat)
    requires n > 0
    ensures Shr(x, n) == Shr(x / 2, n - 1)
  {
  }

  /** The coded block maximum. */
  function XmaxcOf(xmax: int16): (c: int16)
    requires 0 <= xmax
    ensures 0 <= c <= 63
  {
    Add16(Shr(xmax, ExpOf(xmax) + 5), ExpOf(xmax) * 8)
  }

  datatype ExpMant = ExpMant(exp: int, mant: int)

  /** The normalising loop: shift ones in until the mantissa has its top bit. */
  function NormaliseMantissa(exp: int, mant: int): ExpMant
    requires 1 <= mant
    decreases 8 - mant
  {
    if mant <= 7 then NormaliseMantissa(exp - 1, 2 * mant + 1) else ExpMant(exp, mant - 8)
  }

  /** apcm_quantization_xmaxc_to_exp_mant. */
  function ExpMantOf(xmaxc: int16): (r: ExpMant)
    requires 0 <= xmaxc <= 63
    ensures -4 <= r.exp <= 6 && 0 <= r.mant <= 7
  {
    var exp := if xmaxc > 15 then xmaxc / 8 - 1 else 0;
    var mant := xmaxc - exp * 8;
    if mant == 0 then ExpMant(-4, 7)
    else
      NormalisedMantissa(exp, mant);
      NormaliseMantissa(exp, mant)
  }

  lemma NormalisedMantissa(exp: int, mant: int)
    requires 1 <= mant <= 15
    ensures NormaliseMantissa(exp, mant)
         == (if mant >= 8 then ExpMant(exp, mant - 8)
             else if mant >= 4 then ExpMant(exp - 1, 2 * mant - 7)
             else if mant >= 2 then ExpMant(exp - 2, 4 * mant - 5)
             else ExpMant(exp - 3, 7))
  {
    if mant <= 7 {
      assert NormaliseMantissa(exp, mant) == NormaliseMantissa(exp - 1, 2 * mant + 1);
      if mant <= 3 {
        assert NormaliseMantissa(exp - 1, 2 * mant + 1) == NormaliseMantissa(exp - 2, 4 * mant + 3);
        if mant == 1 {
          assert NormaliseMantissa(exp - 2, 7) == NormaliseMantissa(exp - 3, 15);
        }
      }
    }
  }

  /** The decoded exponent and mantissa bracket the block maximum from above: after
      the normalising shift it lies below (mant + 9) * 2^11. */
  lemma MaximumIsBracketed(xmax: int16)
    requires 0 <= xmax
    ensures var em := ExpMantOf(XmaxcOf(xmax));
            0 <= 6 - em.exp <= 10 && Shl(xmax, 6 - em.exp) < (em.mant + 9) * 2048
  {
    var e := ExpOf(xmax);
    var q := Shr(xmax, e + 5);
    var em := ExpMantOf(XmaxcOf(xmax));
    ShrByNine(xmax, e);
    ShlSmall(xmax);
    if e > 0 {
      assert em == ExpMant(e, q - 8) by { NormalisedMantissa(e, q); }
    } else {
      assert XmaxcOf(xmax) == q == xmax / 32;
      if q > 0 { NormalisedMantissa(0, q); }
    }
  }

  /** Left shifts up to ten, as multiplications. */
  lemma ShlSmall(x: int)
    ensures Shl(x, 0) == x && Shl(x, 1) == 2 * x && Shl(x, 2) == 4 * x && Shl(x, 3) == 8 * x
    ensures Shl(x, 4) == 16 * x && Shl(x, 5) == 32 * x && Shl(x, 6) == 64 * x && Shl(x, 7) == 128 * x
    ensures Shl(x, 8) == 256 * x && Shl(x, 9) == 512 * x && Shl(x, 10) == 1024 * x
  {
    ShlTwice(x, 1);
    ShlTwice(x, 2);
    ShlTwice(x, 3);
    ShlTwice(x, 4);
    ShlTwice(x, 5);
    ShlTwice(x, 6);
    ShlTwice(x, 7);
    ShlTwice(x, 8);
    ShlTwice(x, 9);
    ShlTwice(x, 10);
  }

  // ---- quantization of one sample ----

  function CodeOf(x: int16, em: ExpMant): int
    requires 0 <= em.mant <= 7 && em.exp <= 6
  {
    Mul16(Wrap16(Shl(x, 6 - em.exp)), GSM_NRFAC[em.mant]) / 4096 + 4
  }

  /** The value before the rounding shift: a fraction of the decoded maximum. */
  function Restored(code: int16, mant: int): int16
    requires 0 <= mant <= 7
  {
    MultR(GSM_FAC[mant], Wrap16((code * 2 - 7) * 4096))
  }

  function DecodedSample(code: int16, em: ExpMant): int16
    requires 0 <= em.mant <= 7 && -4 <= em.exp <= 6
  {
    GsmAsr(Add16(Restored(code, em.mant), GsmAsl(1, 6 - em.exp - 1)), 6 - em.exp)
  }

  /** A sample, after the normalising shift, within the range that the mantissa
      allows.  The most negative 16-bit value is its own case, because its magnitude
      was limited when the maximum was taken. */
  predicate InBracket(X: int, mant: int) {
    && 0 <= mant <= 7
    && (-(mant + 9) * 2048 < X < (mant + 9) * 2048 || (mant == 7 && X == -0x8000))
  }

  // For each mantissa: the code range, and the distance of the decoded midpoint.

  lemma ErrorAtMantissa0(X: int16)
    requires InBracket(X, 0)
    ensures var code := Mul16(X, 29128) / 4096 + 4;
            0 <= code <= 7 && Abs(MultR(18431, Wrap16((code * 2 - 7) * 4096)) - X) <= 2305
  {
    ProductIsTimes(X, 29128);
    var code := Mul16(X, 29128) / 4096 + 4;
    ProductIsTimes(18431, (code * 2 - 7) * 4096);
  }

  lemma ErrorAtMantissa1(X: int16)
    requires InBracket(X, 1)
    ensures var code := Mul16(X, 26215) / 4096 + 4;
            0 <= code <= 7 && Abs(MultR(20479, Wrap16((code * 2 - 7) * 4096)) - X) <= 2561
  {
    ProductIsTimes(X, 26215);
    var code := Mul16(X, 26215) / 4096 + 4;
    ProductIsTimes(20479, (code * 2 - 7) * 4096);
  }

  lemma ErrorAtMantissa2(X: int16)
    requires InBracket(X, 2)
    ensures var code := Mul16(X, 23832) / 4096 + 4;
            0 <= code <= 7 && Abs(MultR(22527, Wrap16((code * 2 - 7) * 4096)) - X) <= 2817
  {
    ProductIsTimes(X, 23832);
    var code := Mul16(X, 23832) / 4096 + 4;
    ProductIsTimes(22527, (code * 2 - 7) * 4096);
  }

  lemma ErrorAtMantissa3(X: int16)
    requires InBracket(X, 3)
    ensures var code := Mul16(X, 21846) / 4096 + 4;
            0 <= code <= 7 && Abs(MultR(24575, Wrap16((code * 2 - 7) * 4096)) - X) <= 3073
  {
    ProductIsTimes(X, 21846);
    var code := Mul16(X, 21846) / 4096 + 4;
    ProductIsTimes(24575, (code * 2 - 7) * 4096);
  }

  lemma ErrorAtMantissa4(X: int16)
    requires InBracket(X, 4)
    ensures var code := Mul16(X, 20165) / 4096 + 4;
            0 <= code <= 7 && Abs(MultR(26623, Wrap16((code * 2 - 7) * 4096)) - X) <= 3329
  {
    ProductIsTimes(X, 20165);
    var code := Mul16(X, 20165) / 4096 + 4;
    ProductIsTimes(26623, (code * 2 - 7) * 4096);
  }

  lemma ErrorAtMantissa5(X: int16)
    requires InBracket(X, 5)
    ensures var code := Mul16(X, 18725) / 4096 + 4;
            0 <= code <= 7 && Abs(MultR(28671, Wrap16((code * 2 - 7) * 4096)) - X) <= 3585
  {
    ProductIsTimes(X, 18725);
    var code := Mul16(X, 18725) / 4096 + 4;
    ProductIsTimes(28671, (code * 2 - 7) * 4096);
  }

  lemma ErrorAtMantissa6(X: int16)
    requires InBracket(X, 6)
    ensures var code := Mul16(X, 17476) / 4096 + 4;
            0 <= code <= 7 && Abs(MultR(30719, Wrap16((code * 2 - 7) * 4096)) - X) <= 3841
  {
    ProductIsTimes(X, 17476);
    var code := Mul16(X, 17476) / 4096 + 4;
    ProductIsTimes(30719, (code * 2 - 7) * 4096);
  }

  lemma ErrorAtMantissa7(X: int16)
    requires InBracket(X, 7)
    ensures var code := Mul16(X, 16384) / 4096 + 4;
            0 <= code <= 7 && Abs(MultR(32767, Wrap16((code * 2 - 7) * 4096)) - X) <= 4097
  {
    ProductIsTimes(X, 16384);
    var code := Mul16(X, 16384) / 4096 + 4;
    ProductIsTimes(32767, (code * 2 - 7) * 4096);
  }

  /** On the normalised scale the code selects one of eight intervals, whose decoded
      midpoint is off by half an interval and one unit of rounding at most. */
  lemma NormalisedError(X: int16, mant: int)
    requires InBracket(X, mant)
    ensures var code := Mul16(X, GSM_NRFAC[mant]) / 4096 + 4;
            0 <= code <= 7 && Abs(Restored(code, mant) - X) <= 256 * (mant + 9) + 1
  {
    hide Mul16, MultR, Wrap16;
    if mant == 0 { ErrorAtMantissa0(X); }
    else if mant == 1 { ErrorAtMantissa1(X); }
    else if mant == 2 { ErrorAtMantissa2(X); }
    else if mant == 3 { ErrorAtMantissa3(X); }
    else if mant == 4 { ErrorAtMantissa4(X); }
    else if mant == 5 { ErrorAtMantissa5(X); }
    else if mant == 6 { ErrorAtMantissa6(X); }
    else { ErrorAtMantissa7(X); }
  }

  lemma RestoredValue(code: int, mant: int)
    requires 0 <= code <= 7 && 0 <= mant <= 7
    ensures Restored(code, mant) == (GSM_FAC[mant] * ((code * 2 - 7) * 4096) + 0x4000) / 0x8000
  {
    ProductIsTimes(GSM_FAC[mant], (code * 2 - 7) * 4096);
  }

  lemma ShiftValues(y: int16, t: nat)
    requires t <= 10
    ensures GsmAsr(y, t) == Shr(y, t)
    ensures GsmAsl(1, t - 1) == Shl(1, t) / 2
  {
    ShrFits(y, t);
    ShlSmall(1);
    if t == 0 {
      assert Shr(1, 1) == Shr(0, 0);
    } else {
      ShlTwice(1, t);
      ShlIsMonotone(0, 1, t - 1);
      ShlIsLinear(0, 0, t - 1);
    }
  }

  lemma HalfUnit(t: nat)
    requires t <= 10
    ensures 0 <= Shl(1, t) / 2 <= 512
    ensures if t == 0 then Shl(1, t) == 1 else Shl(1, t) == 2 * (Shl(1, t) / 2)
  {
    ShlSmall(1);
  }

  /** The rounding shift: half a unit of the target scale at most. */
  lemma RoundingShift(y: int16, t: nat)
    requires t <= 10 && -0x7000 <= y <= 0x7000
    ensures var xmp := GsmAsr(Add16(y, GsmAsl(1, t - 1)), t);
            Abs(Shl(xmp, t) - y) <= Shl(1, t) / 2
  {
    hide GsmAsr, GsmAsl, Shl, Shr;
    var half := Shl(1, t) / 2;
    HalfUnit(t);
    ShiftValues(y, t);
    ShiftValues(y + half, t);
    var q := Shr(y + half, t);
    ShrIsFloor(y + half, t, q);
    ShlIsLinear(q, 1, t);
  }

  /** The quantizer bound for one sample of a block: the code fits three bits, the
      normalising shift fits 16 bits, and on the normalised scale the decoded sample
      is within half an interval plus the rounding. */
  predicate SampleBound(x: int16, em: ExpMant)
    requires -4 <= em.exp <= 6 && 0 <= em.mant <= 7
  {
    var t := 6 - em.exp;
    && -0x8000 <= Shl(x, t) <= 0x7FFF
    && 0 <= CodeOf(x, em) <= 7
    && Abs(Shl(DecodedSample(CodeOf(x, em), em) - x, t)) <= 256 * (em.mant + 9) + 1 + Shl(1, t) / 2
  }

  /** It holds for every sample of every block, whatever the block maximum. */
  lemma QuantizerBound(x: int16, xmax: int16)
    requires Abs16(x) <= xmax
    ensures SampleBound(x, ExpMantOf(XmaxcOf(xmax)))
  {
    hide XmaxcOf, ExpMantOf, GsmAsr, GsmAsl, Restored, Mul16, GSM_NRFAC, Shl;
    var em := ExpMantOf(XmaxcOf(xmax));
    var t := 6 - em.exp;
    MaximumIsBracketed(xmax);
    SampleInBracket(x, xmax, em, t);
    var X := Shl(x, t);
    NormalisedError(X, em.mant);
    NoWrap(X);
    var code := CodeOf(x, em);
    var y := Restored(code, em.mant);
    RestoredRange(code, em.mant);
    RoundingShift(y, t);
    ShlOfDifference(DecodedSample(code, em), x, t);
  }

  lemma NoWrap(x: int16)
    ensures Wrap16(x) == x
  {
  }

  lemma ShlOfDifference(a: int, b: int, t: nat)
    ensures Shl(a - b, t) == Shl(a, t) - Shl(b, t)
  {
    ShlIsLinear(a, -b, t);
    ShlIsLinear(b, 0, t);
  }

  lemma RestoredRange(code: int16, mant: int)
    requires 0 <= code <= 7 && 0 <= mant <= 7
    ensures -0x7000 <= Restored(code, mant) <= 0x7000
  {
    RestoredValue(code, mant);
  }

  lemma FullScale()
    ensures ExpMantOf(XmaxcOf(32767)) == ExpMant(6, 7)
  {
    ShrByNine(32767, 6);
    TopBitSmall(63);
    assert XmaxcOf(32767) == 63;
    NormalisedMantissa(6, 15);
  }

  lemma SampleInBracket(x: int16, xmax: int16, em: ExpMant, t: nat)
    requires Abs16(x) <= xmax && em == ExpMantOf(XmaxcOf(xmax)) && t == 6 - em.exp
    requires Shl(xmax, t) < (em.mant + 9) * 2048
    ensures InBracket(Shl(x, t), em.mant)
  {
    hide XmaxcOf, ExpMantOf;
    if x == -0x8000 {
      FullScale();
    } else {
      ShlIsLinear(xmax, 0, t);
      ShlIsMonotone(x, xmax, t);
      ShlIsMonotone(-xmax, x, t);
    }
  }

  // ---- blocks of thirteen samples ----

  /** A coded block: its maximum, and one three-bit code per sample. */
  datatype Block = Block(xmaxc: int16, codes: seq<int16>) {
    predicate InRange() {
      0 <= xmaxc <= 63 && |codes| == 13 && forall i :: 0 <= i < 13 ==> 0 <= codes[i] <= 7
    }
  }

  function CodeWithin(x: int16, xmax: int16): (c: int16)
    requires Abs16(x) <= xmax
    ensures 0 <= c <= 7
  {
    hide XmaxcOf, ExpMantOf, CodeOf, DecodedSample, Shl;
    QuantizerBound(x, xmax);
    CodeOf(x, ExpMantOf(XmaxcOf(xmax)))
  }

  function CodeBlock(xM: seq<int16>): (b: Block)
    requires |xM| == 13
    ensures b.InRange()
  {
    hide XmaxcOf, CodeWithin, MaxAbs;
    Block(XmaxcOf(MaxAbs(xM)), seq(13, i requires 0 <= i < 13 => CodeWithin(xM[i], MaxAbs(xM))))
  }

  function DecodeBlock(b: Block): (r: seq<int16>)
    requires b.InRange()
    ensures |r| == 13
  {
    seq(13, i requires 0 <= i < 13 => DecodedSample(b.codes[i], ExpMantOf(b.xmaxc)))
  }

  /** The restored sample `y` lies within the quantizer bound of the sample `x`. */
  predicate Close(x: int16, y: int16, em: ExpMant)
    requires -4 <= em.exp <= 6
  {
    Abs(Shl(y - x, 6 - em.exp)) <= 256 * (em.mant + 9) + 1 + Shl(1, 6 - em.exp) / 2
  }

  /** The quantizer bound over a whole block, between what was coded and what any
      decoder restores from the code. */
  lemma BlockBound(xM: seq<int16>, i: nat)
    requires |xM| == 13 && i < 13
    ensures Close(xM[i], DecodeBlock(CodeBlock(xM))[i], ExpMantOf(CodeBlock(xM).xmaxc))
  {
    hide XmaxcOf, ExpMantOf, CodeOf, DecodedSample, Shl, MaxAbs;
    QuantizerBound(xM[i], MaxAbs(xM));
  }

  // ---- the procedures ----

  method BlockMaximum(xM: seq<int16>) returns (xmax: int16)
    ensures xmax == MaxAbs(xM)
  {
    xmax := 0;
    for i := 0 to |xM|
      invariant xmax == MaxAbs(xM[..i])
    {
      assert xM[..i + 1][..i] == xM[..i];
      var temp := Abs16(xM[i]);
      if temp > xmax { xmax := temp; }
    }
    assert xM[..|xM|] == xM;
  }

  /** The exponent loop: counts the significant bits of `xmax >> 9`, with a flag
      that stays set once they are used up. */
  method BlockExponent(xmax: int16) returns (exp: int16)
    requires 0 <= xmax
    ensures exp == ExpOf(xmax)
  {
    exp := 0;
    var temp: int := xmax as int / 512;
    var itest := false;
    for i := 0 to 6
      invariant 0 <= temp && 0 <= exp <= i
      invariant TopBitOf(xmax / 512) == exp + TopBitOf(temp)
      invariant if itest then temp == 0 else exp == i
    {
      TopBitHalved(temp);
      itest := itest || temp <= 0;
      temp := temp / 2;
      assert exp <= 5;
      if !itest { exp := exp + 1; }
    }
    TopBitHalved(temp);
  }

  method XmaxcToExpMant(xmaxc: int16) returns (exp: int16, mant: int16)
    requires 0 <= xmaxc <= 63
    ensures ExpMant(exp, mant) == ExpMantOf(xmaxc)
  {
    exp := 0;
    if xmaxc > 15 { exp := xmaxc / 8 - 1; }
    mant := xmaxc - exp * 8;
    if mant == 0 {
      exp := -4;
      mant := 7;
    } else {
      ghost var goal := NormaliseMantissa(exp, mant);
      while mant <= 7
        invariant 1 <= mant <= 15 && -4 <= exp <= 6
        invariant NormaliseMantissa(exp, mant) == goal
        invariant mant <= 7 ==> exp > -4
        decreases 8 - mant
      {
        NormalisedMantissa(exp, mant);
        mant := mant * 2 + 1;
        exp := exp - 1;
      }
      mant := mant - 8;
    }
  }

  /** apcm_quantization. */
  method ApcmQuantization(xM: seq<int16>, xMc: array<int16>) returns (mant: int16, exp: int16, xmaxc: int16)
    requires |xM| == 13 == xMc.Length
    modifies xMc
    ensures Block(xmaxc, xMc[..]) == CodeBlock(xM)
    ensures ExpMant(exp, mant) == ExpMantOf(xmaxc)
  {
    hide MaxAbs, ExpMantOf, CodeWithin;
    var xmax := BlockMaximum(xM);
    exp := BlockExponent(xmax);
    xmaxc := Add16(Shr(xmax, exp + 5), exp * 8);
    assert xmaxc == XmaxcOf(xmax);
    hide XmaxcOf;
    exp, mant := XmaxcToExpMant(xmaxc);
    QuantizeSamples(xM, xmax, xMc, exp, mant);
    assert xMc[..] == CodeBlock(xM).codes;
  }

  method QuantizeSamples(xM: seq<int16>, xmax: int16, xMc: array<int16>, exp: int16, mant: int16)
    requires |xM| == 13 == xMc.Length && xmax == MaxAbs(xM)
    requires ExpMant(exp, mant) == ExpMantOf(XmaxcOf(xmax))
    modifies xMc
    ensures forall i :: 0 <= i < 13 ==> xMc[i] == CodeWithin(xM[i], xmax)
  {
    hide MaxAbs, ExpMantOf, XmaxcOf, Mul16, Wrap16, Shl;
    for i := 0 to 13
      invariant forall k :: 0 <= k < i ==> xMc[k] == CodeWithin(xM[k], xmax)
    {
      var temp: int := Wrap16(Shl(xM[i], 6 - exp));
      temp := Mul16(temp, GSM_NRFAC[mant]);
      temp := temp / 4096;
      assert temp + 4 == CodeWithin(xM[i], xmax);
      xMc[i] := temp + 4;
    }
  }

  /** apcm_inverse_quantization. */
  method ApcmInverseQuantization(xMc: seq<int16>, mant: int16, exp: int16, xMp: array<int16>, ghost xmaxc: int16)
    requires Block(xmaxc, xMc).InRange() && ExpMant(exp, mant) == ExpMantOf(xmaxc)
    requires xMp.Length == 13
    modifies xMp
    ensures xMp[..] == DecodeBlock(Block(xmaxc, xMc))
  {
    hide MultR, GsmAsl, GsmAsr, Add16;
    var temp1 := GSM_FAC[mant];
    var temp2: int := Sub16(6, exp);
    var temp3 := GsmAsl(1, Sub16(temp2, 1));
    ghost var restored := DecodeBlock(Block(xmaxc, xMc));
    for i := 0 to 13
      invariant xMp[..i] == restored[..i]
    {
      var temp := Wrap16((xMc[i] as int * 2 - 7) * 4096);
      temp := MultR(temp1, temp);
      temp := Add16(temp, temp3);
      xMp[i] := GsmAsr(temp, temp2);
      assert xMp[i] == restored[i];
    }
    assert xMp[..13] == xMp[..] && restored[..13] == restored;
  }
}
