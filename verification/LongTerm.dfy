/** The long-term predictor (gsm0610_long_term.c, sections 4.2.11, 4.2.12 and 4.3.2
    of GSM 06.10). */
module LongTerm {
  import opened Saturated
  import opened BitOperations
  import opened VectorInt
  import opened Autocorrelation
  import opened GsmState
  import opened Rpe

  /** The last 120 samples of reconstructed residual, oldest first. */
  type History = h: seq<int16> | |h| == 120 witness seq(120, _ => 0)

  const GSM_DLB: seq<int16> := [6554, 16384, 26214, 32767]
  const GSM_QLB: seq<int16> := [3277, 11469, 21299, 32767]

  /** The forty history samples that lag `lag` lines up with the sub-frame. */
  function Lagged(h: History, lag: nat): Sub40
    requires 40 <= lag <= 120
  {
    h[120 - lag..160 - lag]
  }

  // ---- scaling of the sub-frame ----

  function ScaleFor(dmax: int16): (scale: nat)
    requires 0 <= dmax
    ensures scale <= 6
  {
    var temp := if dmax == 0 then 0 else Gsm0610Norm(dmax * 0x1_0000);
    if temp > 6 then 0 else 6 - temp
  }

  function ScaledSample(x: int16, scale: nat): int16 {
    ShrFits(x, scale);
    Shr(x, scale)
  }

  function ScaledSub(d: Sub40): Sub40 {
    var scale := ScaleFor(MaxAbs(d));
    seq(40, k requires 0 <= k < 40 => ScaledSample(d[k], scale))
  }

  lemma ScaledSampleIsSmall(x: int16, dmax: int16)
    requires Abs16(x) <= dmax
    ensures -512 <= ScaledSample(x, ScaleFor(dmax)) <= 512
  {
    if dmax > 0 {
      var n := Gsm0610Norm(dmax * 0x1_0000);
      HeadroomTo512(dmax, n);
      hide Gsm0610Norm;
      SmallRightShifts(x);
    }
  }

  lemma SmallRightShifts(x: int)
    ensures Shr(x, 0) == x && Shr(x, 1) == x / 2 && Shr(x, 2) == x / 4 && Shr(x, 3) == x / 8
    ensures Shr(x, 4) == x / 16 && Shr(x, 5) == x / 32 && Shr(x, 6) == x / 64
  {
    ShrNext(x, 1);
    ShrNext(x, 2);
    ShrNext(x, 3);
    ShrNext(x, 4);
    ShrNext(x, 5);
    ShrNext(x, 6);
  }

  lemma {:induction false} ShrNext(x: int, n: nat)
    requires n > 0
    ensures Shr(x, n) == Shr(x, n - 1) / 2
    decreases n
  {
    if n > 1 { ShrNext(x / 2, n - 1); }
  }

  lemma FiveDoublings(y: int, n: nat)
    requires n >= 5
    ensures Shl(y, n) == Shl(32 * y, n - 5)
  {
    assert Shl(y, n) == Shl(2 * y, n - 1) == Shl(4 * y, n - 2);
    assert Shl(4 * y, n - 2) == Shl(8 * y, n - 3) == Shl(16 * y, n - 4);
  }

  lemma HeadroomTo512(smax: int16, n: nat)
    requires smax > 0 && Shl(smax * 0x1_0000, n) <= 0x7FFF_FFFF
    ensures n >= 1 ==> smax < 16384
    ensures n >= 2 ==> smax < 8192
    ensures n >= 3 ==> smax < 4096
    ensures n >= 4 ==> smax < 2048
    ensures n >= 5 ==> smax < 1024
    ensures n >= 6 ==> smax < 512
  {
    HeadroomOf(smax, n);
    var y := smax * 0x1_0000;
    if n >= 5 {
      FiveDoublings(y, n);
      ShlGrows(32 * y, n - 5);
    }
    if n >= 6 { ShlGrows(64 * y, n - 6); }
  }

  // ---- search for the lag ----

  function CrossCorrelation(wt: Sub40, h: History, lag: nat): int
    requires 40 <= lag <= 120
  {
    Dot(Lagged(h, lag), wt)
  }

  datatype Peak = Peak(max: int, lag: nat)

  /** The search over lags 40 to `n - 1`. */
  function Best(wt: Sub40, h: History, n: nat): (p: Peak)
    requires 40 <= n <= 121
    ensures 40 <= p.lag <= 120
  {
    if n == 40 then Peak(0, 40)
    else
      var before := Best(wt, h, n - 1);
      var res := CrossCorrelation(wt, h, n - 1);
      if res > before.max then Peak(res, n - 1) else before
  }

  /** The result is the first lag of greatest positive correlation, and lag 40 with
      maximum zero when no lag correlates positively. */
  lemma {:induction false} BestIsFirstMaximum(wt: Sub40, h: History, n: nat)
    requires 40 <= n <= 121
    ensures var p := Best(wt, h, n);
            && 0 <= p.max
            && (p.max == 0 ==> p.lag == 40)
            && (p.max > 0 ==> p.lag < n && CrossCorrelation(wt, h, p.lag) == p.max)
            && (forall i :: 40 <= i < n ==> CrossCorrelation(wt, h, i) <= p.max)
            && (p.max > 0 ==> forall i :: 40 <= i < p.lag ==> CrossCorrelation(wt, h, i) < p.max)
  {
    hide CrossCorrelation;
    if n > 40 { BestIsFirstMaximum(wt, h, n - 1); }
  }

  lemma {:induction false} AbsSumBound(ys: seq<int>, m: int)
    requires m >= 0 && forall i :: 0 <= i < |ys| ==> -m <= ys[i] <= m
    ensures AbsSum(ys) <= |ys| * m
  {
    if ys != [] {
      AbsSumBound(ys[..|ys| - 1], m);
      assert |ys| * m == (|ys| - 1) * m + m;
    }
  }

  /** No partial sum of a correlation overflows 32 bits, nor does its double. */
  lemma CorrelationFits(d: Sub40, h: History, lag: nat)
    requires 40 <= lag <= 120
    ensures PartialSumsFit(Lagged(h, lag), ScaledSub(d))
    ensures -0x2800_0000 <= CrossCorrelation(ScaledSub(d), h, lag) <= 0x2800_0000
  {
    hide MaxAbs, ScaleFor, ScaledSample, PartialSumsFit;
    var wt := ScaledSub(d);
    forall k | 0 <= k < 40
      ensures -512 <= wt[k] <= 512
    {
      ScaledSampleIsSmall(d[k], MaxAbs(d));
    }
    AbsSumBound(wt, 512);
    DotBound(Lagged(h, lag), wt, 0x8000);
    assert 0x8000 * AbsSum(wt) <= 0x2800_0000;
    GainFits(Lagged(h, lag), wt, 0x8000);
  }

  // ---- gain ----

  function Power(xs: seq<int16>): int {
    if xs == [] then 0
    else Power(xs[..|xs| - 1]) + Product(xs[|xs| - 1] / 8, xs[|xs| - 1] / 8)
  }

  lemma {:induction false} PowerFits(xs: seq<int16>)
    ensures 0 <= Power(xs) <= |xs| * 0x100_0000
  {
    if xs != [] {
      var n := |xs| - 1;
      PowerFits(xs[..n]);
      ProductBounds(xs[n] / 8, xs[n] / 8, 4096, 4096);
      SquareBound(xs[n] / 8, 0);
    }
  }

  /** In units of 64, the power is that of the history segment, but for the shifts. */
  lemma {:induction false} PowerIsOfTheSegment(xs: seq<int16>)
    ensures -(14 * AbsSum(xs) + 147 * |xs|) <= Dot(xs, xs) - 64 * Power(xs) <= 14 * AbsSum(xs) + 147 * |xs|
  {
    if xs != [] {
      PowerIsOfTheSegment(xs[..|xs| - 1]);
      ShiftedSquare(xs[|xs| - 1]);
    }
  }

  lemma ShiftedSquare(x: int16)
    ensures -(14 * Abs(x) + 147) <= Product(x, x) - 64 * Product(x / 8, x / 8) <= 14 * Abs(x) + 147
  {
    var q, r := x / 8, x % 8;
    assert x * x == 64 * (q * q) + 16 * (q * r) + r * r;
    TimesBounds(q, r, Abs(q), 7);
    TimesBounds(r, r, 7, 7);
  }

  /** First decision level that the ratio R/S does not exceed; 3 when there is none. */
  function GainCode(R: int16, S: int16, b: nat): (bc: nat)
    requires b <= 3
    ensures b <= bc <= 3
    ensures bc < 3 ==> R <= Mul16(S, GSM_DLB[bc])
    ensures forall i :: b <= i < bc ==> R > Mul16(S, GSM_DLB[i])
    decreases 3 - b
  {
    if b == 3 then 3
    else if R <= Mul16(S, GSM_DLB[b]) then b
    else GainCode(R, S, b + 1)
  }

  /** Top sixteen bits after the normalising shift. */
  function TopHalf(L: int, temp: nat): int16 {
    Wrap16(Shl(L, temp) / 0x1_0000)
  }

  function GainOf(L_max: int, L_power: int): (bc: nat)
    requires L_power <= 0x7FFF_FFFF
    ensures bc <= 3
  {
    if L_max <= 0 then 0
    else if L_max >= L_power then 3
    else
      var temp := Gsm0610Norm(L_power);
      GainCode(TopHalf(L_max, temp), TopHalf(L_power, temp), 0)
  }

  /** Where the gain is normalised, the divisor is positive and both shifted values
      fit 32 bits, so the 16-bit casts are lossless. */
  lemma GainShiftsAreSafe(L_max: int, L_power: int)
    requires 0 < L_max < L_power <= 0x7FFF_FFFF
    ensures var temp := Gsm0610Norm(L_power);
            && 0 <= Shl(L_max, temp) <= Shl(L_power, temp) <= 0x7FFF_FFFF
            && TopHalf(L_max, temp) == Shl(L_max, temp) / 0x1_0000
            && TopHalf(L_power, temp) == Shl(L_power, temp) / 0x1_0000 >= 0x4000
  {
    hide Gsm0610Norm, Shl;
    var temp := Gsm0610Norm(L_power);
    ShlIsMonotone(L_max, L_power, temp);
    ShlGrows(L_max, temp);
  }

  datatype Parameters = Parameters(nc: nat, bc: nat) {
    predicate InRange() {
      40 <= nc <= 120 && bc <= 3
    }
  }

  /** The value called L_max after rescaling. */
  function RescaledMax(d: Sub40, h: History): int {
    Shr(Best(ScaledSub(d), h, 121).max * 2, 6 - ScaleFor(MaxAbs(d)))
  }

  /** evaluate_ltp_parameters. */
  function LtpOf(d: Sub40, h: History): (p: Parameters)
    ensures p.InRange()
  {
    var nc := Best(ScaledSub(d), h, 121).lag;
    PowerFits(Lagged(h, nc));
    Parameters(nc, GainOf(RescaledMax(d, h), 2 * Power(Lagged(h, nc))))
  }

  /** Each decoded gain lies between the decision levels around its code. */
  lemma GainsInterlace(bc: nat)
    requires bc <= 3
    ensures bc < 3 ==> GSM_QLB[bc] < GSM_DLB[bc]
    ensures bc > 0 ==> GSM_DLB[bc - 1] < GSM_QLB[bc]
  {
  }

  /** The decoded gain is within 6554/32768 of the ratio R/S that was coded. */
  lemma CodedGainIsClose(R: int16, S: int16)
    requires 0 <= R <= S
    ensures Abs(0x8000 * R - Product(GSM_QLB[GainCode(R, S, 0)], S)) <= 6554 * S + 0x8000
  {
    var bc := GainCode(R, S, 0);
    TruncatedLevel(S, GSM_DLB[0]);
    TruncatedLevel(S, GSM_DLB[1]);
    TruncatedLevel(S, GSM_DLB[2]);
    hide GainCode, Mul16;
    assert bc > 0 ==> R > Mul16(S, GSM_DLB[bc - 1]);
    if bc == 0 {
    } else if bc == 1 {
    } else if bc == 2 {
    } else {
    }
  }

  lemma TruncatedLevel(S: int16, level: int16)
    requires 0 <= S && 0 <= level
    ensures 0x8000 * Mul16(S, level) <= level * S < 0x8000 * Mul16(S, level) + 0x8000
  {
    ProductIsTimes(S, level);
  }

  function Unit(n: nat): int {
    if n == 0 then 1 else 2 * Unit(n - 1)
  }

  lemma {:induction false} ShrBracket(x: int, n: nat)
    ensures Product(Unit(n), Shr(x, n)) <= x < Product(Unit(n), Shr(x, n)) + Unit(n)
    decreases n
  {
    if n == 0 {
      ProductIsTimes(1, x);
    } else {
      ShrBracket(x / 2, n - 1);
      DoubledProduct(Unit(n - 1), Shr(x / 2, n - 1));
    }
  }

  lemma DoubledProduct(u: int, x: int)
    ensures Product(2 * u, x) == 2 * Product(u, x)
  {
    assert 2 * u * x == 2 * (u * x);
  }

  /** One term of the correlation, from the scaled and from the original sample. */
  lemma ScaledTerm(x: int, d: int, w: int, u: int)
    requires Product(u, w) <= d < Product(u, w) + u
    ensures -Product(u, Abs(x)) <= Product(x, d) - Product(u, Product(x, w)) <= Product(u, Abs(x))
  {
    var r := d - u * w;
    assert x * d == u * (x * w) + x * r;
    if x >= 0 {
      assert 0 <= x * r <= x * u;
    } else {
      assert 0 <= -x * r <= -x * u;
      assert -x * r == -(x * r) && -x * u == u * -x;
    }
  }

  /** Scaling down loses less than one scaled unit per sample. */
  lemma {:induction false} ScaledDot(xs: seq<int16>, d: seq<int16>, w: seq<int16>, scale: nat)
    requires |xs| == |d| == |w| && forall k :: 0 <= k < |d| ==> w[k] == ScaledSample(d[k], scale)
    ensures -Product(Unit(scale), AbsSum(xs)) <= Dot(xs, d) - Product(Unit(scale), Dot(xs, w)) <= Product(Unit(scale), AbsSum(xs))
  {
    hide Product, Unit;
    var u := Unit(scale);
    if xs == [] {
      ProductIsTimes(u, 0);
    } else {
      var n := |xs| - 1;
      ScaledDot(xs[..n], d[..n], w[..n], scale);
      ShrBracket(d[n], scale);
      ScaledTerm(xs[n], d[n], w[n], u);
      SplitProduct(u, Dot(xs[..n], w[..n]), Product(xs[n], w[n]));
      SplitProduct(u, AbsSum(xs[..n]), Abs(xs[n]));
    }
  }

  lemma SplitProduct(u: int, x: int, y: int)
    ensures Product(u, x + y) == Product(u, x) + Product(u, y)
  {
  }

  /** The correlation whose gain is coded: doubled, in units of 64, it is that of the
      sub-frame itself, although the search uses a scaled copy. */
  lemma MaximumIsOfTheSubFrame(d: Sub40, h: History)
    requires Best(ScaledSub(d), h, 121).max > 0
    ensures var xs := Lagged(h, Best(ScaledSub(d), h, 121).lag);
            2 * Dot(xs, d) - 64 - 128 * AbsSum(xs) <= 64 * RescaledMax(d, h) <= 2 * Dot(xs, d) + 128 * AbsSum(xs)
  {
    hide *;
    var scale := ScaleFor(MaxAbs(d));
    var w := ScaledSub(d);
    var p := Best(w, h, 121);
    var xs := Lagged(h, p.lag);
    MaximumParts(d, h);
    ScaledDot(xs, d, w, scale);
    ShrBracket(2 * p.max, 6 - scale);
    InUnitsOf64(scale, p.max, Shr(2 * p.max, 6 - scale), Dot(xs, d), AbsSum(xs));
  }

  lemma MaximumParts(d: Sub40, h: History)
    requires Best(ScaledSub(d), h, 121).max > 0
    ensures var p := Best(ScaledSub(d), h, 121);
            p.max == Dot(Lagged(h, p.lag), ScaledSub(d))
    ensures RescaledMax(d, h) == Shr(2 * Best(ScaledSub(d), h, 121).max, 6 - ScaleFor(MaxAbs(d)))
    ensures forall k :: 0 <= k < 40 ==> ScaledSub(d)[k] == ScaledSample(d[k], ScaleFor(MaxAbs(d)))
  {
    hide Best, Dot, ScaledSample, ScaleFor, Shr, MaxAbs;
    BestIsFirstMaximum(ScaledSub(d), h, 121);
  }

  lemma InUnitsOf64(scale: nat, max: int, rescaled: int, dot: int, gain: nat)
    requires scale <= 6
    requires Product(Unit(6 - scale), rescaled) <= 2 * max < Product(Unit(6 - scale), rescaled) + Unit(6 - scale)
    requires -Product(Unit(scale), gain) <= dot - Product(Unit(scale), max) <= Product(Unit(scale), gain)
    ensures 2 * dot - 64 - 128 * gain <= 64 * rescaled <= 2 * dot + 128 * gain
  {
    assert Unit(0) == 1 && Unit(1) == 2 && Unit(2) == 4;
    assert Unit(3) == 8 && Unit(4) == 16;
    assert Unit(5) == 32 && Unit(6) == 64;
    if scale == 0 {
    } else if scale == 1 {
    } else if scale == 2 {
    } else if scale == 3 {
    } else if scale == 4 {
    } else if scale == 5 {
    } else {
    }
  }

  // ---- prediction and reconstruction ----

  function PredictionAt(h: History, p: Parameters, k: nat): int16
    requires p.InRange() && k < 40
  {
    MultR(GSM_QLB[p.bc], h[120 + k - p.nc])
  }

  function Prediction(h: History, p: Parameters): Sub40
    requires p.InRange()
  {
    seq(40, k requires 0 <= k < 40 => PredictionAt(h, p, k))
  }

  function Residual(d: Sub40, prediction: Sub40): Sub40 {
    seq(40, k requires 0 <= k < 40 => Sub16(d[k], prediction[k]))
  }

  /** Both ends: prediction plus restored residual. */
  function Rebuild(h: History, p: Parameters, ep: Sub40): Sub40
    requires p.InRange()
  {
    seq(40, k requires 0 <= k < 40 => Add16(ep[k], PredictionAt(h, p, k)))
  }

  /** What the subtraction at sample `k` loses to saturation. */
  function Lost(d: Sub40, prediction: Sub40, k: nat): int
    requires k < 40
  {
    d[k] as int - prediction[k] as int - Residual(d, prediction)[k] as int
  }

  /** The rebuilt sample is no farther from the original than the restored residual `ep` is
      from the one that was coded, but for what the subtraction lost. */
  lemma RebuiltIsClose(d: Sub40, h: History, p: Parameters, ep: Sub40, k: nat)
    requires p.InRange() && k < 40
    ensures var prediction := Prediction(h, p);
            Abs(Rebuild(h, p, ep)[k] as int - d[k] as int)
               <= Abs(ep[k] as int - Residual(d, prediction)[k] as int) + Abs(Lost(d, prediction, k))
    ensures Lost(d, Prediction(h, p), k) == 0
       <==> -0x8000 <= d[k] as int - Prediction(h, p)[k] as int <= 0x7FFF
  {
    var v := PredictionAt(h, p, k);
    SaturateIsNearest(ep[k] as int + v as int, d[k]);
    hide PredictionAt;
    assert Rebuild(h, p, ep)[k] == Add16(ep[k], v) && Residual(d, Prediction(h, p))[k] == Sub16(d[k], v);
  }

  /** With the residual itself, the original comes back exactly where the subtraction did
      not saturate. */
  lemma ResidualRebuildsIffKept(d: Sub40, h: History, p: Parameters, k: nat)
    requires p.InRange() && k < 40
    ensures var prediction := Prediction(h, p);
            Rebuild(h, p, Residual(d, prediction))[k] == d[k] <==> Lost(d, prediction, k) == 0
  {
    var v := PredictionAt(h, p, k);
    hide PredictionAt;
    assert Residual(d, Prediction(h, p))[k] == Sub16(d[k], v);
    assert Rebuild(h, p, Residual(d, Prediction(h, p)))[k] == Add16(Sub16(d[k], v), v);
  }

  function Advance(h: History, r: Sub40): History {
    h[40..] + r
  }

  /** The prediction is the stretch of history at the lag that the search compared, times
      the decoded gain, rounded. */
  lemma PredictionIsLagged(h: History, p: Parameters, k: nat)
    requires p.InRange() && k < 40
    ensures var x, v := Lagged(h, p.nc)[k], Prediction(h, p)[k];
            -0x4000 <= 0x8000 * v - Product(GSM_QLB[p.bc], x) <= 0x4000
  {
    var x := Lagged(h, p.nc)[k];
    assert x == h[120 + k - p.nc];
    RoundMulBounds(GSM_QLB[p.bc], x);
    assert MultR(GSM_QLB[p.bc], x) == RoundMul(GSM_QLB[p.bc], x);
    hide Product;
  }

  /** The newest forty samples are at lag 40, and the others move up by forty. */
  lemma HistoryMovesUp(h: History, r: Sub40, lag: nat)
    requires 40 <= lag <= 80
    ensures Lagged(Advance(h, r), 40) == r && Lagged(Advance(h, r), lag + 40) == Lagged(h, lag)
  {
  }

  /** The decoded gain is within a fifth of full scale of the ratio of correlation and power:
      the distance of the decision levels around it, and rounding. */
  lemma GainOfIsClose(L_max: int, L_power: int)
    requires 0 < L_max < L_power <= 0x7FFF_FFFF
    ensures -6558 * L_power <= 0x8000 * L_max - Product(GSM_QLB[GainOf(L_max, L_power)], L_power) <= 6558 * L_power
  {
    hide Gsm0610Norm, GainCode, Shl, Wrap16;
    var temp := Gsm0610Norm(L_power);
    GainShiftsAreSafe(L_max, L_power);
    var R, S := TopHalf(L_max, temp), TopHalf(L_power, temp);
    var m, p := Shl(L_max, temp), Shl(L_power, temp);
    hide TopHalf;
    CodedGainIsClose(R, S);
    var q: int := GSM_QLB[GainCode(R, S, 0)];
    HalvesAreClose(R, S, m, p, q);
    ShlIsTimes(L_max, temp);
    ShlIsTimes(L_power, temp);
    Unshifted(L_max, L_power, Unit(temp), q);
  }

  lemma HalvesAreClose(R: int16, S: int16, m: int, p: int, q: int)
    requires 0 <= R <= S && R == m / 0x1_0000 && S == p / 0x1_0000 && 0x4000 <= S && 0 <= q <= 0x7FFF
    requires Abs(0x8000 * R - Product(q, S)) <= 6554 * S + 0x8000
    ensures -6558 * p <= 0x8000 * m - Product(q, p) <= 6558 * p
  {
    hide Product;
    var r, s := m - 0x1_0000 * R, p - 0x1_0000 * S;
    assert 0 <= r < 0x1_0000 && 0 <= s < 0x1_0000;
    UpperAndLower(q, S, s);
    assert p == 0x1_0000 * S + s;
    assert Product(q, p) == 0x1_0000 * Product(q, S) + Product(q, s);
    ProductBounds(q, s, 0x7FFF, 0xFFFF);
    ProductIsNonNegative(q, s);
  }

  lemma ProductIsNonNegative(x: nat, y: nat)
    ensures Product(x, y) >= 0
  {
  }

  lemma UpperAndLower(q: int, upper: int, lower: int)
    ensures Product(q, 0x1_0000 * upper + lower) == 0x1_0000 * Product(q, upper) + Product(q, lower)
  {
    assert q * (0x1_0000 * upper + lower) == 0x1_0000 * (q * upper) + q * lower;
  }

  lemma {:induction false} ShlIsTimes(x: int, n: nat)
    ensures Shl(x, n) == Product(Unit(n), x) && Unit(n) >= 1
    decreases n
  {
    if n == 0 {
      ProductIsTimes(1, x);
    } else {
      ShlIsTimes(2 * x, n - 1);
      assert Unit(n - 1) * (2 * x) == 2 * Unit(n - 1) * x;
    }
  }

  lemma Unshifted(max: int, power: int, u: int, q: int)
    requires u >= 1
    requires -6558 * Product(u, power) <= 0x8000 * Product(u, max) - Product(q, Product(u, power)) <= 6558 * Product(u, power)
    ensures -6558 * power <= 0x8000 * max - Product(q, power) <= 6558 * power
  {
    var z := 0x8000 * max - q * power;
    assert 0x8000 * (u * max) - q * (u * power) == u * z;
    assert u * (6558 * power - z) == 6558 * (u * power) - u * z;
    assert u * (z + 6558 * power) == u * z + 6558 * (u * power);
    if z > 6558 * power { NegativeFactor(u, 6558 * power - z); }
    if z < -6558 * power { NegativeFactor(u, z + 6558 * power); }
  }

  lemma NegativeFactor(u: int, y: int)
    requires u >= 1 && y < 0
    ensures u * y < 0
  {
  }

  // ---- the procedures ----

  method ScaleOf(dmax: int16) returns (scale: int16)
    requires 0 <= dmax
    ensures scale == ScaleFor(dmax)
  {
    var temp: int16 := 0;
    if dmax != 0 { temp := Gsm0610Norm(dmax as int * 0x1_0000); }
    scale := if temp > 6 then 0 else 6 - temp;
  }

  /** gsm0610_max_cross_corr.  The history of the sub-frame that starts at `at` is
      the stretch of `dp0` before it. */
  method MaxCrossCorr(wt: Sub40, dp0: array<int16>, at: nat, ghost d: Sub40) returns (max: int32, index: nat)
    requires 120 <= at && at + 40 <= dp0.Length && wt == ScaledSub(d)
    ensures Peak(max, index) == Best(wt, dp0[at - 120..at], 121)
  {
    hide Dot, ScaledSub, PartialSumsFit;
    ghost var h: History := dp0[at - 120..at];
    max := 0;
    index := 40;
    var i := 40;
    while i <= 120
      invariant 40 <= i <= 121
      invariant Peak(max, index) == Best(wt, h, i)
    {
      var res := VecDotProdi16(dp0, at - i, wt, 0, 40);
      CorrelationFits(d, h, i);
      assert dp0[at - i..at - i + 40] == Lagged(h, i) && wt[0..0 + 40] == wt;
      if res > max {
        max := res;
        index := i;
      }
      i := i + 1;
    }
  }

  method HistoryPower(dp0: array<int16>, from: nat) returns (L_power: int32)
    requires from + 40 <= dp0.Length
    ensures L_power == Power(dp0[from..from + 40])
    ensures 0 <= L_power <= 40 * 0x100_0000
  {
    L_power := 0;
    for k := 0 to 40
      invariant L_power == Power(dp0[from..from + k])
    {
      var L_temp := dp0[from + k] / 8;
      PowerFits(dp0[from..from + k + 1]);
      assert dp0[from..from + k + 1][..k] == dp0[from..from + k];
      L_power := L_power + Product(L_temp, L_temp);
    }
    PowerFits(dp0[from..from + 40]);
  }

  method CodeGain(L_max: int, L_power: int) returns (bc: int16)
    requires L_power <= 0x7FFF_FFFF
    ensures bc == GainOf(L_max, L_power)
  {
    hide Gsm0610Norm, Wrap16, Shl, Mul16;
    if L_max <= 0 { return 0; }
    if L_max >= L_power { return 3; }
    var temp := Gsm0610Norm(L_power);
    var R := Wrap16(Shl(L_max, temp) / 0x1_0000);
    var S := Wrap16(Shl(L_power, temp) / 0x1_0000);
    bc := 0;
    while bc <= 2
      invariant 0 <= bc <= 3
      invariant GainCode(R, S, 0) == GainCode(R, S, bc)
    {
      if R <= Mul16(S, GSM_DLB[bc]) { break; }
      bc := bc + 1;
    }
  }

  /** evaluate_ltp_parameters on the sub-frame `d`. */
  method EvaluateLtpParameters(d: Sub40, dp0: array<int16>, at: nat) returns (bc: int16, Nc: nat)
    requires 120 <= at && at + 40 <= dp0.Length
    ensures 0 <= bc && Parameters(Nc, bc) == LtpOf(d, dp0[at - 120..at])
  {
    hide MaxAbs, ScaleFor, Best, GainOf, Power, ScaledSample, Shr, Product;
    ghost var h: History := dp0[at - 120..at];
    var dmax := MaximumOf(d);
    var scale := ScaleOf(dmax);
    var wt := ScaleSub(d, scale);
    assert wt == ScaledSub(d);
    var L_max: int32;
    L_max, Nc := MaxCrossCorr(wt, dp0, at, d);
    PeakFits(d, h);
    L_max := L_max * 2;
    ShrShrinks(L_max, 6 - scale);
    L_max := Shr(L_max, 6 - scale);
    assert L_max == RescaledMax(d, h);
    var L_power := HistoryPower(dp0, at - Nc);
    LaggedStretch(dp0[..], at, Nc);
    assert dp0[..][at - 120..at] == h && dp0[..][at - Nc..at - Nc + 40] == dp0[at - Nc..at - Nc + 40];
    PowerFits(Lagged(h, Nc));
    L_power := L_power * 2;
    bc := CodeGain(L_max, L_power);
  }

  lemma LaggedStretch(s: seq<int16>, at: nat, lag: nat)
    requires 120 <= at && at + 40 <= |s| && 40 <= lag <= 120
    ensures Lagged(s[at - 120..at], lag) == s[at - lag..at - lag + 40]
  {
  }

  lemma PeakFits(d: Sub40, h: History)
    ensures 0 <= Best(ScaledSub(d), h, 121).max <= 0x2800_0000
  {
    hide CrossCorrelation, ScaledSub;
    BestIsFirstMaximum(ScaledSub(d), h, 121);
    var p := Best(ScaledSub(d), h, 121);
    CorrelationFits(d, h, p.lag);
  }

  lemma {:induction false} ShrShrinks(x: int32, n: nat)
    requires 0 <= x
    ensures 0 <= Shr(x, n) <= x
    decreases n
  {
    if n > 0 { ShrShrinks(x / 2, n - 1); }
  }

  method MaximumOf(d: Sub40) returns (dmax: int16)
    ensures dmax == MaxAbs(d)
  {
    dmax := 0;
    for k := 0 to 40
      invariant dmax == MaxAbs(d[..k])
    {
      assert d[..k + 1][..k] == d[..k];
      var temp := Abs16(d[k]);
      if temp > dmax { dmax := temp; }
    }
    assert d[..40] == d;
  }

  /** The working array wt. */
  method ScaleSub(d: Sub40, scale: nat) returns (wt: Sub40)
    ensures forall k :: 0 <= k < 40 ==> wt[k] == ScaledSample(d[k], scale)
  {
    var w := new int16[40];
    for k := 0 to 40
      invariant forall i :: 0 <= i < k ==> w[i] == ScaledSample(d[i], scale)
    {
      w[k] := ScaledSample(d[k], scale);
    }
    wt := w[..];
  }

  /** gsm0610_long_term_predictor.  The prediction goes to the place of the sub-frame
      in `dp0`, which the caller also passes as the history; the writes stay ahead
      of every read, because lags are at least forty. */
  method LongTermPredictor(d: Sub40, dp0: array<int16>, at: nat, e: array<int16>) returns (Nc: nat, bc: int16)
    requires 120 <= at && at + 40 <= dp0.Length && e.Length == 50 && e != dp0
    modifies dp0, e
    ensures 0 <= bc && Parameters(Nc, bc) == LtpOf(d, old(dp0[at - 120..at]))
    ensures dp0[at..at + 40] == Prediction(old(dp0[at - 120..at]), Parameters(Nc, bc))
    ensures dp0[..at] == old(dp0[..at]) && dp0[at + 40..] == old(dp0[at + 40..])
    ensures e[5..45] == Residual(d, dp0[at..at + 40])
    ensures e[..5] == old(e[..5]) && e[45..] == old(e[45..])
  {
    hide LtpOf, MultR, Sub16;
    bc, Nc := EvaluateLtpParameters(d, dp0, at);
    LongTermAnalysisFiltering(bc, Nc, dp0, at, d, e);
  }

  method LongTermAnalysisFiltering(bc: int16, Nc: nat, dp0: array<int16>, at: nat, d: Sub40, e: array<int16>)
    requires 120 <= at && at + 40 <= dp0.Length && e.Length == 50 && e != dp0
    requires 0 <= bc && Parameters(Nc, bc).InRange()
    modifies dp0, e
    ensures dp0[at..at + 40] == Prediction(old(dp0[at - 120..at]), Parameters(Nc, bc))
    ensures dp0[..at] == old(dp0[..at]) && dp0[at + 40..] == old(dp0[at + 40..])
    ensures e[5..45] == Residual(d, dp0[at..at + 40])
    ensures e[..5] == old(e[..5]) && e[45..] == old(e[45..])
  {
    hide MultR, Sub16;
    ghost var h: History := dp0[at - 120..at];
    ghost var p := Parameters(Nc, bc);
    for k := 0 to 40
      invariant dp0[..at] == old(dp0[..at]) && dp0[at + 40..] == old(dp0[at + 40..])
      invariant e[..5] == old(e[..5]) && e[45..] == old(e[45..])
      invariant forall i :: 0 <= i < k ==> dp0[at + i] == PredictionAt(h, p, i)
      invariant forall i :: 0 <= i < k ==> e[5 + i] == Sub16(d[i], PredictionAt(h, p, i))
    {
      assert dp0[at + k - Nc] == dp0[..at][at + k - Nc] == h[120 + k - Nc];
      dp0[at + k] := MultR(GSM_QLB[bc], dp0[at + k - Nc]);
      e[5 + k] := Sub16(d[k], dp0[at + k]);
    }
    assert dp0[at..at + 40] == Prediction(h, p);
    assert e[5..45] == Residual(d, dp0[at..at + 40]);
  }

  /** gsm0610_long_term_synthesis_filtering.  An out-of-range lag is replaced by the
      last valid one.  The history slides down by forty after the sub-frame. */
  method LongTermSynthesisFiltering(s: Gsm0610State, Ncr: int16, bcr: int16, erp: Sub40)
    requires s.Shaped() && 0 <= bcr <= 3 && 40 <= s.nrp <= 120
    modifies s`nrp, s.dp0
    ensures s.nrp == (if Ncr < 40 || Ncr > 120 then old(s.nrp) else Ncr)
    ensures var h := old(s.dp0[..120]);
            var r := Rebuild(h, Parameters(s.nrp, bcr), erp);
            s.dp0[..120] == Advance(h, r) && s.dp0[120..160] == r
  {
    hide MultR, Add16;
    ghost var h: History := s.dp0[..120];
    var Nr := if Ncr < 40 || Ncr > 120 then s.nrp else Ncr;
    s.nrp := Nr;
    ghost var p := Parameters(Nr, bcr);
    var brp := GSM_QLB[bcr];
    for k := 0 to 40
      invariant s.dp0[..120] == h && s.nrp == Nr
      invariant forall i :: 0 <= i < k ==> s.dp0[120 + i] == Add16(erp[i], PredictionAt(h, p, i))
    {
      assert s.dp0[120 + k - Nr] == s.dp0[..120][120 + k - Nr];
      var drpp := MultR(brp, s.dp0[120 + k - Nr]);
      s.dp0[120 + k] := Add16(erp[k], drpp);
    }
    ghost var r := Rebuild(h, p, erp);
    assert s.dp0[120..160] == r;
    ghost var upper := s.dp0[120..];
    assert upper[..40] == r;
    SlideDown(s.dp0);
    assert s.dp0[120..] == upper && s.dp0[120..160] == upper[..40];
    assert s.dp0[..120] == Advance(h, r);
  }

  method SlideDown(dp0: array<int16>)
    requires dp0.Length == 280
    modifies dp0
    ensures dp0[..120] == old(dp0[40..160]) && dp0[120..] == old(dp0[120..])
  {
    for k := 0 to 120
      invariant forall i :: 0 <= i < k ==> dp0[i] == old(dp0[i + 40])
      invariant forall i :: k <= i < 280 ==> dp0[i] == old(dp0[i])
    {
      dp0[k] := dp0[k + 40];
    }
  }
}
