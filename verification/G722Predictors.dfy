/** Coding and decoding of one pair of sub-band samples (sections 3.3 to 3.6 of
    ITU-T G.722), and the relation between the two ends over whole runs. */
module G722Predictors {
  import opened Saturated
  import opened G722Tables
  import opened G722Band

  /** Bits per code: 6, 7 or 8 for 48, 56 or 64 kbit/s. */
  type Width = b: nat | 6 <= b <= 8 witness 8

  // ---- blocks 1L and 1H: quantization ----

  /** One's complement magnitude: `(e >= 0) ? e : ~e`. */
  function Magnitude(e: int): (r: int)
    ensures r >= 0
  {
    if e >= 0 then e else -e - 1
  }

  /** Decision level `i` for the scale factor `det`. */
  function Threshold(i: nat, det: int16): int
    requires i < 30
  {
    Product(Q6Level(i), det) / 4096
  }

  /** First level from `i` on that lies above `wd`; 30 when there is none. */
  function QuantIndex(wd: int, det: int16, i: nat): (r: nat)
    requires 1 <= i <= 30
    ensures i <= r <= 30
    ensures r < 30 ==> wd < Threshold(r, det)
    ensures forall k :: i <= k < r ==> Threshold(k, det) <= wd
    decreases 30 - i
  {
    if i == 30 then 30
    else if wd < Threshold(i, det) then i
    else QuantIndex(wd, det, i + 1)
  }

  function LowCode(xlow: int16, s: int16, det: int16): (r: nat)
    ensures r < 64
  {
    var el := Sub16(xlow, s);
    var i := QuantIndex(Magnitude(el), det, 1);
    if el < 0 then Iln(i) else Ilp(i)
  }

  function HighIndex(xhigh: int16, s: int16, det: int16): (r: nat)
    ensures r < 4
  {
    var eh := Sub16(xhigh, s);
    HighCode(eh < 0, if Magnitude(eh) >= 564 * det / 4096 then 2 else 1)
  }

  // ---- blocks 2 to 4: what both ends do with a quantized difference ----

  function Dequantized(det: int16, level: int): int16 {
    Wrap16(Product(det, level) / 0x8000)
  }

  function EncoderLow(st: Band, ril: nat): (n: Band)
    requires st.Shaped() && ril < 16
    ensures n.Shaped()
  {
    var nb := EncoderLogScale(8, st.nb, LowScaleStep(ril));
    Predicted(st.(nb := nb, det := Scale(8, nb)), Dequantized(st.det, Qm4(ril)))
  }

  function EncoderHigh(st: Band, ihigh: nat): (n: Band)
    requires st.Shaped() && ihigh < 4
    ensures n.Shaped()
  {
    var nb := EncoderLogScale(10, st.nb, HighScaleStep(ihigh));
    Predicted(st.(nb := nb, det := Scale(10, nb)), Dequantized(st.det, Qm2(ihigh)))
  }

  function DecoderLow(st: Band, ril: nat): (n: Band)
    requires st.Shaped() && ril < 16
    ensures n.Shaped()
  {
    var nb := DecoderLogScale(8, st.nb, LowScaleStep(ril));
    Predicted(st.(nb := nb, det := Scale(8, nb)), Dequantized(st.det, Qm4(ril)))
  }

  function DecoderHigh(st: Band, ihigh: nat): (n: Band)
    requires st.Shaped() && ihigh < 4
    ensures n.Shaped()
  {
    var nb := DecoderLogScale(10, st.nb, HighScaleStep(ihigh));
    Predicted(st.(nb := nb, det := Scale(10, nb)), Dequantized(st.det, Qm2(ihigh)))
  }

  lemma LowStepsAgree(st: Band, ril: nat)
    requires Sound(8, st) && ril < 16
    ensures EncoderLow(st, ril) == DecoderLow(st, ril)
    ensures Sound(8, EncoderLow(st, ril))
  {
    hide Predicted, Scale, LowScaleStep, Qm4;
    LogScalesAgree(8, st.nb, LowScaleStep(ril));
    var nb := EncoderLogScale(8, st.nb, LowScaleStep(ril));
    PredictedIsStable(st.(nb := nb, det := Scale(8, nb)), Dequantized(st.det, Qm4(ril)));
  }

  lemma HighStepsAgree(st: Band, ihigh: nat)
    requires Sound(10, st) && ihigh < 4
    ensures EncoderHigh(st, ihigh) == DecoderHigh(st, ihigh)
    ensures Sound(10, EncoderHigh(st, ihigh))
  {
    hide Predicted, Scale, HighScaleStep, Qm2;
    LogScalesAgree(10, st.nb, HighScaleStep(ihigh));
    var nb := EncoderLogScale(10, st.nb, HighScaleStep(ihigh));
    PredictedIsStable(st.(nb := nb, det := Scale(10, nb)), Dequantized(st.det, Qm2(ihigh)));
  }

  /** The cast of a dequantized difference is lossless in every sound band. */
  lemma DequantizedIsExact(offset: nat, st: Band, level: int)
    requires offset == 8 || offset == 10
    requires Sound(offset, st) && -0x8000 <= level <= 0x8000
    ensures Dequantized(st.det, level) == Product(st.det, level) / 0x8000
    ensures -16384 <= Dequantized(st.det, level) <= 16384
  {
    SoundDet(offset, st);
    ProductBounds(st.det, level, 16384, 0x8000);
  }

  // ---- codes ----

  function Drop(bits: Width): (r: nat)
    ensures r == 1 || r == 2 || r == 4
  {
    if bits == 8 then 1 else if bits == 7 then 2 else 4
  }

  /** The code word: two high-band bits above six low-band bits, with the least
      significant bits dropped at the lower rates. */
  function PackCode(bits: Width, ihigh: nat, ilow: nat): (code: nat)
    requires ihigh < 4 && ilow < 64
    ensures code < (if bits == 8 then 256 else if bits == 7 then 128 else 64)
  {
    (ihigh * 64 + ilow) / Drop(bits)
  }

  /** The part of a code that drives the low-band predictor, for each code width. */
  function RilOf(bits: Width, code: nat): (ril: nat)
    ensures ril < 16
  {
    if bits == 8 then code % 64 / 4
    else if bits == 7 then code % 32 / 2
    else code % 16
  }

  function IhighOf(bits: Width, code: nat): (ihigh: nat)
    ensures ihigh < 4
  {
    if bits == 8 then code / 64 % 4
    else if bits == 7 then code / 32 % 4
    else code / 16 % 4
  }

  /** The reconstruction level for the low band, at the precision of the code. */
  function LevelOf(bits: Width, code: nat): (level: int)
    ensures -24808 <= level <= 24808
  {
    if bits == 8 then Qm6(code % 64)
    else if bits == 7 then Qm5(code % 32)
    else Qm4(code % 16)
  }

  /** The embedded property: all three widths carry the same predictor input. */
  lemma WidthsAgree(bits: Width, ihigh: nat, ilow: nat)
    requires ihigh < 4 && ilow < 64
    ensures RilOf(bits, PackCode(bits, ihigh, ilow)) == ilow / 4
    ensures IhighOf(bits, PackCode(bits, ihigh, ilow)) == ihigh
  {
    if bits == 8 {
      FullCode(ihigh, ilow);
    } else if bits == 7 {
      assert (ihigh * 64 + ilow) / 2 == ihigh * 32 + ilow / 2;
      CodeWithoutOne(ihigh, ilow / 2);
      assert ilow / 2 / 2 == ilow / 4;
    } else {
      assert (ihigh * 64 + ilow) / 4 == ihigh * 16 + ilow / 4;
      CodeWithoutTwo(ihigh, ilow / 4);
    }
  }

  lemma FullCode(h: nat, l: nat)
    requires l < 64 && h < 4
    ensures (h * 64 + l) % 64 == l && (h * 64 + l) / 64 % 4 == h
  {
  }

  lemma CodeWithoutOne(h: nat, l: nat)
    requires l < 32 && h < 4
    ensures (h * 32 + l) % 32 == l && (h * 32 + l) / 32 % 4 == h
  {
  }

  lemma CodeWithoutTwo(h: nat, l: nat)
    requires l < 16 && h < 4
    ensures (h * 16 + l) % 16 == l && (h * 16 + l) / 16 % 4 == h
  {
  }

  // ---- one code at each end ----

  datatype Pair = Pair(low: Band, high: Band) {
    predicate Shaped() {
      low.Shaped() && high.Shaped()
    }

    predicate IsSound() {
      Sound(8, low) && Sound(10, high)
    }
  }

  const START := Pair(SILENT_LOW, SILENT_HIGH)

  datatype Encoded = Encoded(state: Pair, code: nat)

  function EncodeOne(c: Pair, bits: Width, eightK: bool, xlow: int16, xhigh: int16): (r: Encoded)
    requires c.Shaped()
    ensures r.state.Shaped() && r.code < 256
    ensures r.code < (if bits == 8 then 256 else if bits == 7 then 128 else 64)
  {
    var ilow := LowCode(xlow, c.low.s, c.low.det);
    var low := EncoderLow(c.low, ilow / 4);
    if eightK then Encoded(Pair(low, c.high), PackCode(bits, 3, ilow))
    else
      var ihigh := HighIndex(xhigh, c.high.s, c.high.det);
      Encoded(Pair(low, EncoderHigh(c.high, ihigh)), PackCode(bits, ihigh, ilow))
  }

  datatype Decoded = Decoded(state: Pair, rlow: int16, rhigh: int16)

  function DecodeOne(c: Pair, bits: Width, eightK: bool, code: nat): (r: Decoded)
    requires c.Shaped()
    ensures r.state.Shaped()
    ensures -16384 <= r.rlow <= 16383 && -16384 <= r.rhigh <= 16383
  {
    hide DecoderLow, DecoderHigh, LevelOf, Qm2, Wrap16;
    var rlow := Saturate15(c.low.s + Product(c.low.det, LevelOf(bits, code)) / 0x8000);
    var low := DecoderLow(c.low, RilOf(bits, code));
    if eightK then Decoded(Pair(low, c.high), rlow, 0)
    else
      var ihigh := IhighOf(bits, code);
      var rhigh := Saturate15(Dequantized(c.high.det, Qm2(ihigh)) + c.high.s);
      Decoded(Pair(low, DecoderHigh(c.high, ihigh)), rlow, rhigh)
  }

  // ---- lockstep ----

  /** What the two ends have in common: always the low band, and the high band too
      when neither or both of them skip it. */
  predicate InStep(enc: Pair, dec: Pair, encEightK: bool, decEightK: bool) {
    enc.low == dec.low && (encEightK == decEightK ==> enc.high == dec.high)
  }

  lemma StepLockstep(enc: Pair, dec: Pair, bits: Width, encEightK: bool, decEightK: bool, xlow: int16, xhigh: int16)
    requires enc.IsSound() && dec.IsSound() && InStep(enc, dec, encEightK, decEightK)
    ensures var e := EncodeOne(enc, bits, encEightK, xlow, xhigh);
            var d := DecodeOne(dec, bits, decEightK, e.code);
            e.state.IsSound() && d.state.IsSound() && InStep(e.state, d.state, encEightK, decEightK)
  {
    hide EncoderLow, DecoderLow, EncoderHigh, DecoderHigh, LowCode, HighIndex, PackCode, RilOf, IhighOf, LevelOf, Sound,
         Dequantized, Qm2;
    var ilow := LowCode(xlow, enc.low.s, enc.low.det);
    var ihigh := if encEightK then 3 else HighIndex(xhigh, enc.high.s, enc.high.det);
    var code := PackCode(bits, ihigh, ilow);
    WidthsAgree(bits, ihigh, ilow);
    LowStepsAgree(enc.low, ilow / 4);
    HighStepsAgree(enc.high, ihigh);
    HighStepsAgree(dec.high, ihigh);
  }

  type SubBands = seq<(int16, int16)>

  datatype EncodedRun = EncodedRun(state: Pair, codes: seq<nat>)

  function EncodeRun(c: Pair, bits: Width, eightK: bool, xs: SubBands): (r: EncodedRun)
    requires c.Shaped()
    ensures r.state.Shaped() && |r.codes| == |xs|
  {
    if xs == [] then EncodedRun(c, [])
    else
      var before := EncodeRun(c, bits, eightK, xs[..|xs| - 1]);
      var x := xs[|xs| - 1];
      var one := EncodeOne(before.state, bits, eightK, x.0, x.1);
      EncodedRun(one.state, before.codes + [one.code])
  }

  datatype DecodedRun = DecodedRun(state: Pair, out: SubBands)

  function DecodeRun(c: Pair, bits: Width, eightK: bool, codes: seq<nat>): (r: DecodedRun)
    requires c.Shaped()
    ensures r.state.Shaped() && |r.out| == |codes|
  {
    if codes == [] then DecodedRun(c, [])
    else
      var before := DecodeRun(c, bits, eightK, codes[..|codes| - 1]);
      var one := DecodeOne(before.state, bits, eightK, codes[|codes| - 1]);
      DecodedRun(one.state, before.out + [(one.rlow, one.rhigh)])
  }

  /** Lockstep over every run: at every rate and for every sequence of sub-band
      samples, the decoder's predictors equal the encoder's after the same codes,
      and both ends stay sound.  The band-splitting flags need not match. */
  lemma {:induction false} Lockstep(enc: Pair, dec: Pair, bits: Width, encEightK: bool, decEightK: bool, xs: SubBands)
    requires enc.IsSound() && dec.IsSound() && InStep(enc, dec, encEightK, decEightK)
    ensures var e := EncodeRun(enc, bits, encEightK, xs);
            var d := DecodeRun(dec, bits, decEightK, e.codes);
            e.state.IsSound() && d.state.IsSound() && InStep(e.state, d.state, encEightK, decEightK)
  {
    hide EncodeOne, DecodeOne;
    if xs != [] {
      var n := |xs| - 1;
      Lockstep(enc, dec, bits, encEightK, decEightK, xs[..n]);
      var e := EncodeRun(enc, bits, encEightK, xs[..n]);
      var codes := EncodeRun(enc, bits, encEightK, xs).codes;
      assert codes[..n] == e.codes;
      var d := DecodeRun(dec, bits, decEightK, e.codes);
      StepLockstep(e.state, d.state, bits, encEightK, decEightK, xs[n].0, xs[n].1);
    }
  }

  // ---- reconstruction error ----

  // At the lower rates the decoder cannot tell apart two or four neighbouring intervals
  // of the quantizer.  A cell is what it can tell apart.

  /** Number of the decision level below the cell of interval `i`. */
  function CellLow(bits: Width, i: nat): (r: nat)
    requires 1 <= i <= 29
    ensures r < i
  {
    if bits == 8 then i - 1
    else if bits == 7 then (i - 1) / 2 * 2
    else if i <= 2 then 0
    else (i + 1) / 4 * 4 - 2
  }

  /** And of the one above it.  The outermost interval, 30, has no upper end; the
      levels of the cells that it belongs to do not go beyond decision level 29. */
  function CellHigh(bits: Width, i: nat): (r: nat)
    requires 1 <= i <= 29
    ensures i <= r <= 29
  {
    var width := if bits == 8 then 1 else if bits == 7 || i <= 2 then 2 else 4;
    if CellLow(bits, i) + width < 29 then CellLow(bits, i) + width else 29
  }

  /** The level that a six-bit low-band code is restored to. */
  function LevelOfLow(bits: Width, ilow: nat): int
    requires ilow < 64
  {
    if bits == 8 then Qm6(ilow) else if bits == 7 then Qm5(ilow / 2) else Qm4(ilow / 4)
  }

  lemma LevelOfCode(bits: Width, ihigh: nat, ilow: nat)
    requires ihigh < 4 && ilow < 64
    ensures LevelOf(bits, PackCode(bits, ihigh, ilow)) == LevelOfLow(bits, ilow)
  {
    hide Qm4, Qm5, Qm6;
    if bits == 8 {
      FullCode(ihigh, ilow);
    } else if bits == 7 {
      assert (ihigh * 64 + ilow) / 2 == ihigh * 32 + ilow / 2;
      CodeWithoutOne(ihigh, ilow / 2);
    } else {
      assert (ihigh * 64 + ilow) / 4 == ihigh * 16 + ilow / 4;
      CodeWithoutTwo(ihigh, ilow / 4);
    }
  }

  /** At each rate the level of a cell lies between the decision levels around the cell
      (which are scaled by 8 less), and the levels are symmetric. */
  lemma LevelsInterlace(bits: Width, i: nat)
    requires 1 <= i <= 29
    ensures 8 * Q6Level(CellLow(bits, i)) <= LevelOfLow(bits, Ilp(i)) <= 8 * Q6Level(CellHigh(bits, i))
    ensures LevelOfLow(bits, Iln(i)) == -LevelOfLow(bits, Ilp(i))
  {
    hide Qm4, Qm5, Qm6, Ilp, Iln, Q6Level;
    if bits == 8 { SixBitLevels(i); }
    else if bits == 7 { PairedLevels(i); }
    else { MergedLevels(i); }
  }

  lemma PairedLevels(i: nat)
    requires 1 <= i <= 29
    ensures 8 * Q6Level(CellLow(7, i)) <= Qm5(Ilp(i) / 2) <= 8 * Q6Level(CellHigh(7, i))
    ensures Qm5(Iln(i) / 2) == -Qm5(Ilp(i) / 2)
  {
    hide Qm5, Ilp, Iln, Q6Level;
    CodesOfIndex(i);
    var c := (62 - i) / 2;
    assert CellLow(7, i) == 60 - 2 * c;
    FiveBitLevels(c);
  }

  lemma MergedLevels(i: nat)
    requires 1 <= i <= 29
    ensures 8 * Q6Level(CellLow(6, i)) <= Qm4(Ilp(i) / 4) <= 8 * Q6Level(CellHigh(6, i))
    ensures Qm4(Iln(i) / 4) == -Qm4(Ilp(i) / 4)
  {
    hide Qm4, Ilp, Iln, Q6Level;
    CodesOfIndex(i);
    if i <= 2 {
      CentreLevels();
    } else {
      var c := (62 - i) / 4;
      assert CellLow(6, i) == 58 - 4 * c;
      FourBitLevels(c);
    }
  }

  /** The two code tables in closed form. */
  lemma CodesOfIndex(i: nat)
    requires 1 <= i <= 29
    ensures Ilp(i) == 62 - i && Iln(i) == (if i <= 2 then 64 - i else 34 - i)
  {
  }

  lemma FiveBitLevels(c: nat)
    requires 16 <= c <= 30
    ensures 8 * Q6Level(60 - 2 * c) <= Qm5(c) <= 8 * Q6Level(if c == 16 then 29 else 62 - 2 * c)
    ensures Qm5(if c == 30 then 31 else c - 14) == -Qm5(c)
  {
    if c <= 20 { FiveBitOuter(c); } else if c <= 25 { FiveBitMiddle(c); } else { FiveBitInner(c); }
  }

  lemma FiveBitOuter(c: nat)
    requires 16 <= c <= 20
    ensures 8 * Q6Level(60 - 2 * c) <= Qm5(c) <= 8 * Q6Level(if c == 16 then 29 else 62 - 2 * c)
    ensures Qm5(c - 14) == -Qm5(c)
  {
  }

  lemma FiveBitMiddle(c: nat)
    requires 21 <= c <= 25
    ensures 8 * Q6Level(60 - 2 * c) <= Qm5(c) <= 8 * Q6Level(62 - 2 * c)
    ensures Qm5(c - 14) == -Qm5(c)
  {
  }

  lemma FiveBitInner(c: nat)
    requires 26 <= c <= 30
    ensures 8 * Q6Level(60 - 2 * c) <= Qm5(c) <= 8 * Q6Level(62 - 2 * c)
    ensures Qm5(if c == 30 then 31 else c - 14) == -Qm5(c)
  {
  }

  lemma FourBitLevels(c: nat)
    requires 8 <= c <= 14
    ensures 8 * Q6Level(58 - 4 * c) <= Qm4(c) <= 8 * Q6Level(if c == 8 then 29 else 62 - 4 * c)
    ensures Qm4(c - 7) == -Qm4(c)
  {
  }

  lemma CentreLevels()
    ensures Qm4(15) == 0 && Q6Level(0) == 0 && Q6Level(2) == 72
  {
  }

  lemma SixBitLevels(i: nat)
    requires 1 <= i <= 29
    ensures 8 * Q6Level(i - 1) <= Qm6(Ilp(i)) <= 8 * Q6Level(i)
    ensures Qm6(Iln(i)) == -Qm6(Ilp(i))
  {
    if i <= 5 { Levels1To5(i); }
    else if i <= 10 { Levels6To10(i); }
    else if i <= 15 { Levels11To15(i); }
    else if i <= 20 { Levels16To20(i); }
    else if i <= 25 { Levels21To25(i); }
    else { Levels26To29(i); }
  }

  lemma Levels1To5(i: nat)
    requires 1 <= i <= 5
    ensures 8 * Q6Level(i - 1) <= Qm6(Ilp(i)) <= 8 * Q6Level(i)
    ensures Qm6(Iln(i)) == -Qm6(Ilp(i))
  {
  }

  lemma Levels6To10(i: nat)
    requires 6 <= i <= 10
    ensures 8 * Q6Level(i - 1) <= Qm6(Ilp(i)) <= 8 * Q6Level(i)
    ensures Qm6(Iln(i)) == -Qm6(Ilp(i))
  {
  }

  lemma Levels11To15(i: nat)
    requires 11 <= i <= 15
    ensures 8 * Q6Level(i - 1) <= Qm6(Ilp(i)) <= 8 * Q6Level(i)
    ensures Qm6(Iln(i)) == -Qm6(Ilp(i))
  {
  }

  lemma Levels16To20(i: nat)
    requires 16 <= i <= 20
    ensures 8 * Q6Level(i - 1) <= Qm6(Ilp(i)) <= 8 * Q6Level(i)
    ensures Qm6(Iln(i)) == -Qm6(Ilp(i))
  {
  }

  lemma Levels21To25(i: nat)
    requires 21 <= i <= 25
    ensures 8 * Q6Level(i - 1) <= Qm6(Ilp(i)) <= 8 * Q6Level(i)
    ensures Qm6(Iln(i)) == -Qm6(Ilp(i))
  {
  }

  lemma Levels26To29(i: nat)
    requires 26 <= i <= 29
    ensures 8 * Q6Level(i - 1) <= Qm6(Ilp(i)) <= 8 * Q6Level(i)
    ensures Qm6(Iln(i)) == -Qm6(Ilp(i))
  {
  }

  /** Rounding down preserves the interlacing, on both sides of zero. */
  lemma DequantizedBetweenThresholds(det: int16, level: int, below: int, above: int)
    requires det > 0 && 0 <= 8 * below <= level <= 8 * above
    ensures Product(below, det) / 4096 <= Product(det, level) / 0x8000 <= Product(above, det) / 4096
    ensures -(Product(above, det) / 4096) - 1 <= Product(det, -level) / 0x8000 <= -(Product(below, det) / 4096)
  {
    ProductIsTimes(below, det);
    ProductIsTimes(above, det);
    ProductIsTimes(det, level);
    ProductIsTimes(det, -level);
    assert det * (8 * below) <= det * level <= det * (8 * above);
    assert det * (8 * below) == 8 * (below * det);
    assert det * (8 * above) == 8 * (above * det);
    assert det * -level == -(det * level);
  }

  /** The quantizer interval that a difference falls into. */
  function IndexOf(st: Band, xlow: int16): (i: nat)
    ensures 1 <= i <= 30
  {
    QuantIndex(Magnitude(Sub16(xlow, st.s)), st.det, 1)
  }

  lemma LevelsGrow(i: nat, j: nat)
    requires i <= j < 30
    ensures Q6Level(i) <= Q6Level(j)
  {
  }

  lemma ThresholdsGrow(i: nat, j: nat, det: int16)
    requires i <= j < 30 && det > 0
    ensures Threshold(i, det) <= Threshold(j, det)
  {
    hide Q6Level;
    LevelsGrow(i, j);
    assert 0 <= (Q6Level(j) - Q6Level(i)) * det;
  }

  /** The cell that caught a difference contains it. */
  lemma CaughtByCell(bits: Width, st: Band, xlow: int16)
    requires IndexOf(st, xlow) <= 29 && st.det > 0
    ensures var i := IndexOf(st, xlow);
            Threshold(CellLow(bits, i), st.det) <= Magnitude(Sub16(xlow, st.s)) < Threshold(CellHigh(bits, i), st.det)
  {
    var i := IndexOf(st, xlow);
    var low := CellLow(bits, i);
    ThresholdsGrow(i, CellHigh(bits, i), st.det);
    if low == 0 { NoLevelZero(st.det); }
    hide Threshold, CellLow, CellHigh;
  }

  lemma NoLevelZero(det: int16)
    ensures Threshold(0, det) == 0
  {
    assert Q6Level(0) == 0;
    ProductIsTimes(0, det);
  }

  /** The reconstruction is off by no more than the width of the cell that caught the
      difference.  The outermost interval, 30, has no upper end. */
  predicate ErrorWithinCell(bits: Width, st: Band, xlow: int16, rlow: int16) {
    var i := IndexOf(st, xlow);
    i <= 29 ==> Abs(rlow - xlow) <= Threshold(CellHigh(bits, i), st.det) - Threshold(CellLow(bits, i), st.det)
  }

  /** One low-band sample.  The limit to 15 bits cannot widen the error, because
      sub-band samples have 15 bits. */
  lemma LowBandError(bits: Width, st: Band, xlow: int16, ihigh: nat, rlow: int16)
    requires Sound(8, st) && -16384 <= xlow <= 16383 && ihigh < 4
    requires rlow == Saturate15(st.s + Product(st.det, LevelOf(bits, PackCode(bits, ihigh, LowCode(xlow, st.s, st.det)))) / 0x8000)
    ensures ErrorWithinCell(bits, st, xlow, rlow)
  {
    hide Threshold, LowCode, IndexOf, Sound, LevelOf, PackCode, LevelOfLow, CellLow, CellHigh;
    if IndexOf(st, xlow) <= 29 {
      RestoredIsNear(bits, st, xlow);
      var ilow := LowCode(xlow, st.s, st.det);
      LevelOfCode(bits, ihigh, ilow);
      Saturate15IsNearest(st.s + Product(st.det, LevelOfLow(bits, ilow)) / 0x8000, xlow);
    }
  }

  /** The restored value before the limit to 15 bits. */
  lemma RestoredIsNear(bits: Width, st: Band, xlow: int16)
    requires Sound(8, st) && -16384 <= xlow <= 16383
    requires IndexOf(st, xlow) <= 29
    ensures Abs(st.s + Product(st.det, LevelOfLow(bits, LowCode(xlow, st.s, st.det))) / 0x8000 - xlow)
         <= Threshold(CellHigh(bits, IndexOf(st, xlow)), st.det) - Threshold(CellLow(bits, IndexOf(st, xlow)), st.det)
  {
    hide Q6Level, Ilp, Iln, QuantIndex, Sound, Scale, LevelOfLow, CellLow, CellHigh;
    var i := IndexOf(st, xlow);
    var el := Sub16(xlow, st.s);
    SoundDet(8, st);
    CaughtByCell(bits, st, xlow);
    ProductBounds(Q6Level(CellHigh(bits, i)), st.det, 2919, 16384);
    assert el == xlow - st.s;
    LevelsInterlace(bits, i);
    DequantizedBetweenThresholds(st.det, LevelOfLow(bits, Ilp(i)), Q6Level(CellLow(bits, i)), Q6Level(CellHigh(bits, i)));
  }

  lemma {:induction false} EncodedAt(c: Pair, bits: Width, eightK: bool, xs: SubBands, k: nat)
    requires c.Shaped() && k < |xs|
    ensures EncodeRun(c, bits, eightK, xs).codes[..k] == EncodeRun(c, bits, eightK, xs[..k]).codes
    ensures EncodeRun(c, bits, eightK, xs).codes[k]
         == EncodeOne(EncodeRun(c, bits, eightK, xs[..k]).state, bits, eightK, xs[k].0, xs[k].1).code
  {
    hide EncodeOne;
    var n := |xs| - 1;
    if k < n {
      EncodedAt(c, bits, eightK, xs[..n], k);
      assert xs[..n][..k] == xs[..k];
    }
  }

  lemma {:induction false} DecodedAt(c: Pair, bits: Width, eightK: bool, codes: seq<nat>, k: nat)
    requires c.Shaped() && k < |codes|
    ensures var one := DecodeOne(DecodeRun(c, bits, eightK, codes[..k]).state, bits, eightK, codes[k]);
            DecodeRun(c, bits, eightK, codes).out[k] == (one.rlow, one.rhigh)
  {
    hide DecodeOne;
    var n := |codes| - 1;
    if k < n {
      DecodedAt(c, bits, eightK, codes[..n], k);
      assert codes[..n][..k] == codes[..k];
    }
  }

  /** The error bound at every position of every run, at each rate, between two ends
      that start alike. */
  lemma RunErrorBound(start: Pair, bits: Width, encEightK: bool, decEightK: bool, xs: SubBands, k: nat)
    requires start.IsSound()
    requires k < |xs| && -16384 <= xs[k].0 <= 16383
    ensures ErrorWithinCell(bits, EncodeRun(start, bits, encEightK, xs[..k]).state.low, xs[k].0,
                            DecodeRun(start, bits, decEightK, EncodeRun(start, bits, encEightK, xs).codes).out[k].0)
  {
    hide Predicted, LevelOf, PackCode, ErrorWithinCell, EncoderLow, DecoderLow, EncoderHigh, DecoderHigh, EncodeRun,
         DecodeRun, LowCode, HighIndex, Dequantized;
    Lockstep(start, start, bits, encEightK, decEightK, xs[..k]);
    EncodedAt(start, bits, encEightK, xs, k);
    var e := EncodeRun(start, bits, encEightK, xs);
    var before := EncodeRun(start, bits, encEightK, xs[..k]).state;
    DecodedAt(start, bits, decEightK, e.codes, k);
    var there := DecodeRun(start, bits, decEightK, e.codes[..k]).state;
    assert there.low == before.low;
    var ihigh := if encEightK then 3 else HighIndex(xs[k].1, before.high.s, before.high.det);
    LowBandError(bits, before.low, xs[k].0, ihigh, DecodeOne(there, bits, decEightK, e.codes[k]).rlow);
  }
}
