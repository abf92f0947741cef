/** The statements of g722_encode and g722_decode that work on one sub-band, in
    place, against the value-level functions of `G722Predictors`. */
module G722Coding {
  import opened Saturated
  import opened G722Tables
  import opened G722Band
  import opened G722Predictors

  /** Block 1L, QUANTL: linear search among the decision levels. */
  method Quantize(wd: int, det: int16) returns (i: nat)
    ensures i == QuantIndex(wd, det, 1)
  {
    i := 1;
    while i < 30
      invariant 1 <= i <= 30
      invariant QuantIndex(wd, det, 1) == QuantIndex(wd, det, i)
    {
      var wd1 := Product(Q6Level(i), det) / 4096;
      if wd < wd1 { break; }
      i := i + 1;
    }
  }

  /** Blocks 1L to 4L of the encoder. */
  method EncodeLow(band: BandState, xlow: int16) returns (ilow: nat)
    requires band.Valid()
    modifies band.Repr
    ensures ilow == LowCode(xlow, old(band.s), old(band.det))
    ensures band.Snapshot() == EncoderLow(old(band.Snapshot()), ilow / 4)
  {
    hide QuantIndex, Iln, Ilp, Qm4, Predicted, Scale, LowScaleStep;
    var el: int := Sub16(xlow, band.s);
    var wd := Magnitude(el);
    var i := Quantize(wd, band.det);
    ilow := if el < 0 then Iln(i) else Ilp(i);
    var ril := ilow / 4;
    var dlow := Dequantized(band.det, Qm4(ril));
    var sum: int := band.nb as int * 127 / 128;
    band.nb := Wrap16(sum + LowScaleStep(ril));
    if band.nb < 0 { band.nb := 0; }
    else if band.nb > 18432 { band.nb := 18432; }
    band.det := Scale(8, band.nb);
    band.Block4(dlow);
  }

  /** Blocks 1H to 4H of the encoder. */
  method EncodeHigh(band: BandState, xhigh: int16) returns (ihigh: nat)
    requires band.Valid()
    modifies band.Repr
    ensures ihigh == HighIndex(xhigh, old(band.s), old(band.det))
    ensures band.Snapshot() == EncoderHigh(old(band.Snapshot()), ihigh)
  {
    hide HighCode, Qm2, Predicted, Scale, HighScaleStep;
    var eh: int := Sub16(xhigh, band.s);
    var wd := Magnitude(eh);
    var wd1: int := 564 * (band.det as int) / 4096;
    var mih := if wd >= wd1 then 2 else 1;
    ihigh := HighCode(eh < 0, mih);
    var dhigh := Dequantized(band.det, Qm2(ihigh));
    var sum: int := band.nb as int * 127 / 128;
    band.nb := Wrap16(sum + HighScaleStep(ihigh));
    if band.nb < 0 { band.nb := 0; }
    else if band.nb > 22528 { band.nb := 22528; }
    band.det := Scale(10, band.nb);
    band.Block4(dhigh);
  }

  /** Blocks 2L to 6L of the decoder: reconstruction at the precision of the code,
      adaptation at the precision common to all rates. */
  method DecodeLow(band: BandState, bits: Width, code: nat) returns (rlow: int16)
    requires band.Valid()
    modifies band.Repr
    ensures rlow == Saturate15(old(band.s) + Product(old(band.det), LevelOf(bits, code)) / 0x8000)
    ensures band.Snapshot() == DecoderLow(old(band.Snapshot()), RilOf(bits, code))
  {
    hide Qm4, Qm5, Qm6, Predicted, Scale, LowScaleStep;
    var wd1: nat;
    var wd2: int;
    if bits == 8 {
      wd1 := code % 64;
      wd2 := Qm6(wd1);
      wd1 := wd1 / 4;
    } else if bits == 7 {
      wd1 := code % 32;
      wd2 := Qm5(wd1);
      wd1 := wd1 / 2;
    } else {
      wd1 := code % 16;
      wd2 := Qm4(wd1);
    }
    wd2 := Product(band.det, wd2) / 0x8000;
    rlow := Saturate15(band.s + wd2);
    var dlow := Dequantized(band.det, Qm4(wd1));
    var sum: int := band.nb as int * 127 / 128 + LowScaleStep(wd1);
    if sum < 0 { sum := 0; }
    else if sum > 18432 { sum := 18432; }
    band.nb := Wrap16(sum);
    band.det := Scale(8, band.nb);
    band.Block4(dlow);
  }

  /** Blocks 2H to 6H of the decoder. */
  method DecodeHigh(band: BandState, ihigh: nat) returns (rhigh: int16)
    requires band.Valid() && ihigh < 4
    modifies band.Repr
    ensures rhigh == Saturate15(Dequantized(old(band.det), Qm2(ihigh)) + old(band.s))
    ensures band.Snapshot() == DecoderHigh(old(band.Snapshot()), ihigh)
  {
    hide Qm2, Predicted, Scale, HighScaleStep, Saturate15, Dequantized;
    var dhigh := Dequantized(band.det, Qm2(ihigh));
    rhigh := Saturate15(dhigh + band.s);
    var sum: int := band.nb as int * 127 / 128 + HighScaleStep(ihigh);
    if sum < 0 { sum := 0; }
    else if sum > 22528 { sum := 22528; }
    band.nb := Wrap16(sum);
    band.det := Scale(10, band.nb);
    band.Block4(dhigh);
  }
}
