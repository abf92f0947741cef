/** The error of the two-bit quantizer of the high band of G.722, and the order of the
    tables that adapt its step size and that of the low band. */
module G722HighBand {
  import opened Saturated
  import opened G722Tables
  import opened G722Band
  import opened G722Predictors

  /** The decision level of the high band. */
  function HighLevel(det: int16): int {
    Product(564, det) / 4096
  }

  /** The restored sample lies on the same side of the prediction as the sample that was
      coded; within the decision level it is off by no more than that level, and beyond it
      it is at least as far from the prediction. */
  predicate HighErrorBounded(st: Band, xhigh: int16, rhigh: int16) {
    var e, level := xhigh as int - st.s as int, HighLevel(st.det);
    && (e >= 0 ==> rhigh >= Saturate15(st.s))
    && (e < 0 ==> rhigh <= Saturate15(st.s as int - 1))
    && (-level <= e < level ==> Abs(rhigh as int - xhigh as int) <= level)
    && (e >= level ==> rhigh >= Saturate15(st.s as int + level))
    && (e < -level ==> rhigh <= Saturate15(st.s as int - level))
  }

  /** The restored difference for each of the four codes. */
  lemma HighDifference(st: Band, xhigh: int16)
    requires Sound(10, st)
    ensures var e, level := xhigh as int - st.s as int, HighLevel(st.det);
            var d := Dequantized(st.det, Qm2(HighIndex(xhigh, st.s, st.det)));
            && 0 <= level <= 2256
            && (0 <= e < level ==> 0 <= d <= level) && (e >= level ==> d >= level)
            && (-level <= e < 0 ==> -level <= d < 0) && (e < -level ==> d <= -level && d < 0)
  {
    SoundDet(10, st);
    var det := st.det;
    DequantizedIsExact(10, st, Qm2(HighIndex(xhigh, st.s, det)));
    HighTables();
    ProductIsTimes(564, det);
    ProductIsTimes(det, -7408);
    ProductIsTimes(det, -1616);
    ProductIsTimes(det, 7408);
    ProductIsTimes(det, 1616);
    var eh := Sub16(xhigh, st.s);
    assert HighIndex(xhigh, st.s, det) == HighCode(eh < 0, if Magnitude(eh) >= HighLevel(det) then 2 else 1);
    hide Dequantized, Qm2, HighCode, Product, HighIndex, Sound;
    LevelsOfDet(det);
  }

  lemma HighTables()
    ensures Qm2(HighCode(false, 1)) == 1616 && Qm2(HighCode(false, 2)) == 7408
    ensures Qm2(HighCode(true, 1)) == -1616 && Qm2(HighCode(true, 2)) == -7408
  {
  }

  lemma LevelsOfDet(det: int16)
    requires 8 <= det <= 16384
    ensures 0 <= 1616 * det / 0x8000 <= 564 * det / 4096 <= 7408 * det / 0x8000
    ensures -(564 * det / 4096) <= -1616 * det / 0x8000 < 0
    ensures -7408 * det / 0x8000 <= -(564 * det / 4096)
    ensures 564 * det / 4096 <= 2256
  {
  }

  /** One high-band sample. */
  lemma HighBandError(st: Band, xhigh: int16, rhigh: int16)
    requires Sound(10, st) && -16384 <= xhigh <= 16383
    requires rhigh == Saturate15(Dequantized(st.det, Qm2(HighIndex(xhigh, st.s, st.det))) + st.s)
    ensures HighErrorBounded(st, xhigh, rhigh)
  {
    hide Dequantized, Qm2, HighIndex, HighLevel, Sound;
    HighDifference(st, xhigh);
    Saturate15IsNearest(Dequantized(st.det, Qm2(HighIndex(xhigh, st.s, st.det))) + st.s, xhigh);
  }

  /** At every position of every wideband run, at each rate, between two ends that start
      alike. */
  lemma RunHighError(start: Pair, bits: Width, xs: SubBands, k: nat)
    requires start.IsSound()
    requires k < |xs| && -16384 <= xs[k].1 <= 16383
    ensures HighErrorBounded(EncodeRun(start, bits, false, xs[..k]).state.high, xs[k].1,
                             DecodeRun(start, bits, false, EncodeRun(start, bits, false, xs).codes).out[k].1)
  {
    hide Predicted, LevelOf, PackCode, HighErrorBounded, EncoderLow, DecoderLow, EncoderHigh, DecoderHigh, EncodeRun,
         DecodeRun, LowCode, HighIndex, Dequantized, Qm2, IhighOf;
    Lockstep(start, start, bits, false, false, xs[..k]);
    EncodedAt(start, bits, false, xs, k);
    var e := EncodeRun(start, bits, false, xs);
    var before := EncodeRun(start, bits, false, xs[..k]).state;
    DecodedAt(start, bits, false, e.codes, k);
    var there := DecodeRun(start, bits, false, e.codes[..k]).state;
    assert there.high == before.high;
    var ilow := LowCode(xs[k].0, before.low.s, before.low.det);
    WidthsAgree(bits, HighIndex(xs[k].1, before.high.s, before.high.det), ilow);
    HighBandError(before.high, xs[k].1, DecodeOne(there, bits, false, e.codes[k]).rhigh);
  }

  // ---- adaptation of the step sizes ----

  /** A code that is restored to a larger magnitude never changes the log scale less. */
  lemma LargerLevelsWidenMore(i: nat, j: nat)
    requires i < 16 && j < 16 && Abs(Qm4(i)) <= Abs(Qm4(j))
    ensures LowScaleStep(i) <= LowScaleStep(j)
  {
    LowLevelOrder(i);
    LowLevelOrder(j);
    hide Qm4, LowScaleStep;
  }

  /** The eight magnitudes of the low band in order, with their steps. */
  lemma LowLevelOrder(i: nat)
    requires i < 16
    ensures var m, step := Abs(Qm4(i)), LowScaleStep(i);
            || (m == 0 && step == -60) || (m == 1200 && step == -30) || (m == 2584 && step == 58)
            || (m == 4240 && step == 172) || (m == 6288 && step == 334) || (m == 8968 && step == 538)
            || (m == 12896 && step == 1198) || (m == 20456 && step == 3042)
  {
  }

  lemma LargerHighLevelsWidenMore(i: nat, j: nat)
    requires i < 4 && j < 4 && Abs(Qm2(i)) <= Abs(Qm2(j))
    ensures HighScaleStep(i) <= HighScaleStep(j)
    ensures Abs(Qm2(i)) < Abs(Qm2(j)) ==> HighScaleStep(i) < 0 < HighScaleStep(j)
  {
  }
}
