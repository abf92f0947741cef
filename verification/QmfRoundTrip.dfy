/** The quadrature mirror filters of G.722 (sections 3.1 and 4.4 of ITU-T G.722): which
    band a signal goes to, and that the receive filters undo the transmit filters. */
module QmfRoundTrip {
  import opened Saturated
  import opened VectorInt
  import opened G722Tables
  import opened G722Predictors
  import opened G722Packing
  import opened G722Codec

  // ---- the filters in closed form ----

  /** The twelve samples of `e` from `k` on, through either filter. */
  function FwdAt(e: seq<int>, k: nat): int
    requires k + 12 <= |e|
  {
    3 * e[k] - 11 * e[k + 1] + 12 * e[k + 2] + 32 * e[k + 3] - 210 * e[k + 4] + 951 * e[k + 5] +
    3876 * e[k + 6] - 805 * e[k + 7] + 362 * e[k + 8] - 156 * e[k + 9] + 53 * e[k + 10] - 11 * e[k +
    11]
  }

  function RevAt(e: seq<int>, k: nat): int
    requires k + 12 <= |e|
  {
    -11 * e[k] + 53 * e[k + 1] - 156 * e[k + 2] + 362 * e[k + 3] - 805 * e[k + 4] + 3876 * e[k + 5]
    + 951 * e[k + 6] - 210 * e[k + 7] + 32 * e[k + 8] + 12 * e[k + 9] - 11 * e[k + 10] + 3 * e[k +
    11]
  }

  lemma DotNext(xs: seq<int>, ys: seq<int>, n: nat)
    requires 0 < n <= |xs| == |ys|
    ensures Dot(xs[..n], ys[..n]) == Dot(xs[..n - 1], ys[..n - 1]) + ys[n - 1] * xs[n - 1]
  {
    assert xs[..n][..n - 1] == xs[..n - 1] && ys[..n][..n - 1] == ys[..n - 1];
    ProductIsTimes(xs[n - 1], ys[n - 1]);
  }

  lemma DotIsFwd(w: Window)
    ensures Dot(w, QMF_COEFFS_FWD) == FwdAt(w, 0)
  {
    hide Dot;
    NoDot(w, QMF_COEFFS_FWD);
    DotNext(w, QMF_COEFFS_FWD, 1);
    DotNext(w, QMF_COEFFS_FWD, 2);
    DotNext(w, QMF_COEFFS_FWD, 3);
    DotNext(w, QMF_COEFFS_FWD, 4);
    DotNext(w, QMF_COEFFS_FWD, 5);
    DotNext(w, QMF_COEFFS_FWD, 6);
    DotNext(w, QMF_COEFFS_FWD, 7);
    DotNext(w, QMF_COEFFS_FWD, 8);
    DotNext(w, QMF_COEFFS_FWD, 9);
    DotNext(w, QMF_COEFFS_FWD, 10);
    DotNext(w, QMF_COEFFS_FWD, 11);
    DotNext(w, QMF_COEFFS_FWD, 12);
    assert w[..12] == w && QMF_COEFFS_FWD[..12] == QMF_COEFFS_FWD;
  }

  lemma DotIsRev(w: Window)
    ensures Dot(w, QMF_COEFFS_REV) == RevAt(w, 0)
  {
    hide Dot;
    NoDot(w, QMF_COEFFS_REV);
    DotNext(w, QMF_COEFFS_REV, 1);
    DotNext(w, QMF_COEFFS_REV, 2);
    DotNext(w, QMF_COEFFS_REV, 3);
    DotNext(w, QMF_COEFFS_REV, 4);
    DotNext(w, QMF_COEFFS_REV, 5);
    DotNext(w, QMF_COEFFS_REV, 6);
    DotNext(w, QMF_COEFFS_REV, 7);
    DotNext(w, QMF_COEFFS_REV, 8);
    DotNext(w, QMF_COEFFS_REV, 9);
    DotNext(w, QMF_COEFFS_REV, 10);
    DotNext(w, QMF_COEFFS_REV, 11);
    DotNext(w, QMF_COEFFS_REV, 12);
    assert w[..12] == w && QMF_COEFFS_REV[..12] == QMF_COEFFS_REV;
  }

  lemma NoDot(xs: seq<int>, ys: seq<int>)
    ensures Dot(xs[..0], ys[..0]) == 0
  {
  }

  // ---- which band a signal goes to ----

  /** A constant signal is all in the low band, at half its value. */
  lemma ConstantIsLow(x: Window, y: Window, c: int16)
    requires forall i :: 0 <= i < 12 ==> x[i] == c && y[i] == c
    ensures LowSum(x, y) == c / 2 && HighSum(x, y) == 0
  {
    DotIsFwd(x);
    DotIsRev(y);
    hide Dot;
  }

  /** A signal that alternates from sample to sample is all in the high band. */
  lemma AlternationIsHigh(x: Window, y: Window, c: int16)
    requires forall i :: 0 <= i < 12 ==> x[i] == c && y[i] == -(c as int)
    ensures LowSum(x, y) == 0 && HighSum(x, y) == -(c as int) / 2
  {
    DotIsFwd(x);
    DotIsRev(y);
    hide Dot;
  }

  // ---- one filter after the other ----

  type Span = s: seq<int> | |s| == 23 witness seq(23, _ => 0)

  /** The transmit filter on twelve successive windows, and the receive filter on that. */
  function FwdThenRev(e: Span): int {
    -11 * FwdAt(e, 0) + 53 * FwdAt(e, 1) - 156 * FwdAt(e, 2) + 362 * FwdAt(e, 3) - 805 * FwdAt(e, 4)
    + 3876 * FwdAt(e, 5) + 951 * FwdAt(e, 6) - 210 * FwdAt(e, 7) + 32 * FwdAt(e, 8) + 12 * FwdAt(e,
    9) - 11 * FwdAt(e, 10) + 3 * FwdAt(e, 11)
  }

  function RevThenFwd(e: Span): int {
    3 * RevAt(e, 0) - 11 * RevAt(e, 1) + 12 * RevAt(e, 2) + 32 * RevAt(e, 3) - 210 * RevAt(e, 4) +
    951 * RevAt(e, 5) + 3876 * RevAt(e, 6) - 805 * RevAt(e, 7) + 362 * RevAt(e, 8) - 156 * RevAt(e,
    9) + 53 * RevAt(e, 10) - 11 * RevAt(e, 11)
  }

  function Mirror(e: Span): int {
    -33 * e[0] + 280 * e[1] - 1183 * e[2] + 3086 * e[3] - 4263 * e[4] - 1756 * e[5] + 2668 * e[6] -
    432 * e[7] - 141 * e[8] - 2325 * e[9] + 2952 * e[10] + 16779510 * e[11] + 2952 * e[12] - 2325 *
    e[13] - 141 * e[14] - 432 * e[15] + 2668 * e[16] - 1756 * e[17] - 4263 * e[18] + 3086 * e[19] -
    1183 * e[20] + 280 * e[21] - 33 * e[22]
  }

  lemma FwdThenRevIsMirror(e: Span)
    ensures FwdThenRev(e) == Mirror(e)
  {
  }

  lemma RevThenFwdIsMirror(e: Span)
    ensures RevThenFwd(e) == Mirror(e)
  {
  }

  /** The two filters in a row leave the sample in the middle, times 2^24 all but. */
  lemma MirrorKeepsTheMiddle(e: Span)
    requires forall k :: 0 <= k < 23 ==> -16350 <= e[k] <= 16350
    ensures -38238 * 16350 <= Mirror(e) - 16779510 * e[11] <= 38238 * 16350
  {
  }

  // ---- rounding ----

  function LowAt(e: Span, o: Span, k: nat): int
    requires k < 12
  {
    (RevAt(o, k) + FwdAt(e, k)) / 16384
  }

  function HighAt(e: Span, o: Span, k: nat): int
    requires k < 12
  {
    (RevAt(o, k) - FwdAt(e, k)) / 16384
  }

  lemma HalvesOf(e: Span, o: Span, k: nat)
    requires k < 12
    ensures 2 * RevAt(o, k) - 0x8000 < 16384 * (LowAt(e, o, k) + HighAt(e, o, k)) <= 2 * RevAt(o, k)
    ensures 2 * FwdAt(e, k) - 0x4000 < 16384 * (LowAt(e, o, k) - HighAt(e, o, k)) < 2 * FwdAt(e, k) + 0x4000
  {
    hide RevAt, FwdAt;
  }

  function Differences(e: Span, o: Span): (r: seq<int>)
    ensures |r| == 12
  {
    seq(12, k requires 0 <= k < 12 => LowAt(e, o, k) - HighAt(e, o, k))
  }

  function Sums(e: Span, o: Span): (r: seq<int>)
    ensures |r| == 12
  {
    seq(12, k requires 0 <= k < 12 => LowAt(e, o, k) + HighAt(e, o, k))
  }

  lemma EvenRounding(e: Span, o: Span)
    ensures -6482 * 0x4000 <= 16384 * RevAt(Differences(e, o), 0) - 2 * FwdThenRev(e) <= 6482 * 0x4000
  {
    var d := Differences(e, o);
    HalvesOf(e, o, 0);
    HalvesOf(e, o, 1);
    HalvesOf(e, o, 2);
    HalvesOf(e, o, 3);
    HalvesOf(e, o, 4);
    HalvesOf(e, o, 5);
    HalvesOf(e, o, 6);
    HalvesOf(e, o, 7);
    HalvesOf(e, o, 8);
    HalvesOf(e, o, 9);
    HalvesOf(e, o, 10);
    HalvesOf(e, o, 11);
    hide FwdAt, LowAt, HighAt;
  }

  lemma OddRounding(e: Span, o: Span)
    ensures -5289 * 0x8000 <= 16384 * FwdAt(Sums(e, o), 0) - 2 * RevThenFwd(o) <= 1193 * 0x8000
  {
    var s := Sums(e, o);
    HalvesOf(e, o, 0);
    HalvesOf(e, o, 1);
    HalvesOf(e, o, 2);
    HalvesOf(e, o, 3);
    HalvesOf(e, o, 4);
    HalvesOf(e, o, 5);
    HalvesOf(e, o, 6);
    HalvesOf(e, o, 7);
    HalvesOf(e, o, 8);
    HalvesOf(e, o, 9);
    HalvesOf(e, o, 10);
    HalvesOf(e, o, 11);
    hide RevAt, LowAt, HighAt;
  }

  predicate Limited23(e: Span) {
    forall k :: 0 <= k < 23 ==> -16350 <= e[k] <= 16350
  }

  /** The even samples come back from the differences of the sub-bands, the odd ones from
      the sums, eleven pairs later. */
  lemma EvenReturns(e: Span, o: Span)
    requires Limited23(e)
    ensures -43 <= RevAt(Differences(e, o), 0) / 2048 - e[11] <= 43
  {
    hide RevAt, FwdThenRev, Mirror, Differences;
    EvenRounding(e, o);
    FwdThenRevIsMirror(e);
    MirrorKeepsTheMiddle(e);
    EvenArithmetic(RevAt(Differences(e, o), 0), Mirror(e), e[11]);
  }

  lemma EvenArithmetic(t: int, s: int, x: int)
    requires -16350 <= x <= 16350 && -38238 * 16350 <= s - 16779510 * x <= 38238 * 16350
    requires -6482 * 0x4000 <= 16384 * t - 2 * s <= 6482 * 0x4000
    ensures -43 <= t / 2048 - x <= 43
  {
  }

  lemma OddArithmetic(t: int, s: int, x: int)
    requires -16350 <= x <= 16350 && -38238 * 16350 <= s - 16779510 * x <= 38238 * 16350
    requires -5289 * 0x8000 <= 16384 * t - 2 * s <= 1193 * 0x8000
    ensures -45 <= t / 2048 - x <= 45
  {
  }

  lemma OddReturns(e: Span, o: Span)
    requires Limited23(o)
    ensures -45 <= FwdAt(Sums(e, o), 0) / 2048 - o[11] <= 45
  {
    hide FwdAt, RevThenFwd, Mirror, Sums;
    OddRounding(e, o);
    RevThenFwdIsMirror(o);
    MirrorKeepsTheMiddle(o);
    OddArithmetic(FwdAt(Sums(e, o), 0), Mirror(o), o[11]);
  }

  // ---- transmitter and receiver back to back ----

  predicate Wideband(cfg: Config) {
    !cfg.ituTestMode && !cfg.eightK
  }

  datatype Ends = Ends(v: EncoderValue, w: DecoderValue, out: seq<int16>)

  /** The band splitting of the encoder and the joining of the decoder over `n` pairs of
      samples, with the sub-band samples passed on unchanged. */
  function Linked(cfg: Config, v: EncoderValue, w: DecoderValue, amp: seq<int16>, n: nat): (r: Ends)
    requires Wideband(cfg) && 2 * n <= |amp|
    ensures |r.out| == 2 * n
  {
    hide LowSum, HighSum, Dot;
    if n == 0 then Ends(v, w, [])
    else
      var before := Linked(cfg, v, w, amp, n - 1);
      var split := SplitBands(cfg, before.v, amp[2 * n - 2..]);
      var play := JoinBands(cfg, before.w, before.w.bands, before.w.pending, split.xlow, split.xhigh);
      Ends(before.v.(x := split.x, y := split.y), play.state, before.out + play.amp)
  }

  function LowOf(e: Ends): int16 {
    Wrap16(LowSum(e.v.x, e.v.y))
  }

  function HighOf(e: Ends): int16 {
    Wrap16(HighSum(e.v.x, e.v.y))
  }

  /** One more pair. */
  lemma LinkedStep(cfg: Config, v: EncoderValue, w: DecoderValue, amp: seq<int16>, n: nat)
    requires Wideband(cfg) && 0 < n && 2 * n <= |amp|
    ensures var b, e := Linked(cfg, v, w, amp, n - 1), Linked(cfg, v, w, amp, n);
            && e.v.x == Shifted(b.v.x, Limited(amp[2 * n - 2])) && e.v.y == Shifted(b.v.y, Limited(amp[2 * n - 1]))
            && e.w.x == Shifted(b.w.x, Wrap16(LowOf(e) as int + HighOf(e) as int))
            && e.w.y == Shifted(b.w.y, Wrap16(LowOf(e) as int - HighOf(e) as int))
            && e.out[2 * n - 2] == Saturate(Dot(e.w.y, QMF_COEFFS_REV) / 2048)
            && e.out[2 * n - 1] == Saturate(Dot(e.w.x, QMF_COEFFS_FWD) / 2048)
  {
    hide LowSum, HighSum, Dot, Limited, Wrap16;
  }

  /** The windows of the transmitter hold the last twelve pairs. */
  lemma {:induction false} TransmitWindow(cfg: Config, v: EncoderValue, w: DecoderValue, amp: seq<int16>, n: nat, j: nat)
    requires Wideband(cfg) && 2 * n <= |amp| && j < 12 && 12 <= n + j
    ensures var e := Linked(cfg, v, w, amp, n);
            e.v.x[j] == Limited(amp[2 * (n + j - 12)]) && e.v.y[j] == Limited(amp[2 * (n + j - 12) + 1])
  {
    hide Linked, Limited, LowOf, HighOf;
    LinkedStep(cfg, v, w, amp, n);
    if j < 11 { TransmitWindow(cfg, v, w, amp, n - 1, j + 1); }
  }

  /** Those of the receiver hold the last twelve sums and differences of the sub-bands. */
  lemma {:induction false} ReceiveWindow(cfg: Config, v: EncoderValue, w: DecoderValue, amp: seq<int16>, n: nat, j: nat)
    requires Wideband(cfg) && 2 * n <= |amp| && j < 12 && 12 <= n + j
    ensures var e, ends := Linked(cfg, v, w, amp, n), Linked(cfg, v, w, amp, n + j - 11);
            && e.w.x[j] == Wrap16(LowOf(ends) as int + HighOf(ends) as int)
            && e.w.y[j] == Wrap16(LowOf(ends) as int - HighOf(ends) as int)
  {
    hide Linked, Wrap16, LowOf, HighOf;
    LinkedStep(cfg, v, w, amp, n);
    if j < 11 { ReceiveWindow(cfg, v, w, amp, n - 1, j + 1); }
  }

  /** The last 23 limited samples of either kind before pair `n`. */
  function EvenSpan(amp: seq<int16>, n: nat): (r: Span)
    requires 23 <= n && 2 * n <= |amp|
    ensures forall k :: 0 <= k < 23 ==> r[k] == Limited(amp[2 * (n - 23 + k)])
  {
    seq(23, k requires 0 <= k < 23 => Limited(amp[2 * (n - 23 + k)]) as int)
  }

  function OddSpan(amp: seq<int16>, n: nat): (r: Span)
    requires 23 <= n && 2 * n <= |amp|
    ensures forall k :: 0 <= k < 23 ==> r[k] == Limited(amp[2 * (n - 23 + k) + 1])
  {
    seq(23, k requires 0 <= k < 23 => Limited(amp[2 * (n - 23 + k) + 1]) as int)
  }

  lemma SameFilter(w: Window, e: Span, j: nat)
    requires j < 12 && forall i :: 0 <= i < 12 ==> w[i] == e[j + i]
    ensures FwdAt(w, 0) == FwdAt(e, j) && RevAt(w, 0) == RevAt(e, j)
  {
    assert w[0] == e[j] && w[1] == e[j + 1] && w[2] == e[j + 2] && w[3] == e[j + 3];
    assert w[4] == e[j + 4] && w[5] == e[j + 5] && w[6] == e[j + 6] && w[7] == e[j + 7];
    assert w[8] == e[j + 8] && w[9] == e[j + 9] && w[10] == e[j + 10] && w[11] == e[j + 11];
  }

  /** The sub-bands along the span. */
  lemma SubBandsOfSpan(cfg: Config, v: EncoderValue, w: DecoderValue, amp: seq<int16>, n: nat, j: nat)
    requires Wideband(cfg) && 23 <= n && 2 * n <= |amp| && j < 12
    ensures var e, o := EvenSpan(amp, n), OddSpan(amp, n);
            var ends := Linked(cfg, v, w, amp, n + j - 11);
            && LowOf(ends) == LowAt(e, o, j) && HighOf(ends) == HighAt(e, o, j)
            && -16384 <= LowOf(ends) <= 16383 && -16384 <= HighOf(ends) <= 16383
  {
    hide Linked, EvenSpan, OddSpan, LowAt, HighAt, LowOf, HighOf;
    WindowsOfSpan(cfg, v, w, amp, n, j);
    SumsOfWindows(Linked(cfg, v, w, amp, n + j - 11), EvenSpan(amp, n), OddSpan(amp, n), j);
  }

  lemma WindowsOfSpan(cfg: Config, v: EncoderValue, w: DecoderValue, amp: seq<int16>, n: nat, j: nat)
    requires Wideband(cfg) && 23 <= n && 2 * n <= |amp| && j < 12
    ensures var ends := Linked(cfg, v, w, amp, n + j - 11);
            forall i :: 0 <= i < 12 ==> ends.v.x[i] == EvenSpan(amp, n)[j + i] && ends.v.y[i] == OddSpan(amp, n)[j + i]
    ensures var ends := Linked(cfg, v, w, amp, n + j - 11);
            Bounded(ends.v.x, 16350) && Bounded(ends.v.y, 16350)
  {
    hide Linked;
    var m := n + j - 11;
    forall i | 0 <= i < 12
      ensures Linked(cfg, v, w, amp, m).v.x[i] == EvenSpan(amp, n)[j + i]
      ensures Linked(cfg, v, w, amp, m).v.y[i] == OddSpan(amp, n)[j + i]
    {
      TransmitWindow(cfg, v, w, amp, m, i);
      assert m + i - 12 == n - 23 + (j + i);
    }
    SpansAreLimited(amp, n);
  }

  lemma SumsOfWindows(ends: Ends, e: Span, o: Span, j: nat)
    requires j < 12 && forall i :: 0 <= i < 12 ==> ends.v.x[i] == e[j + i] && ends.v.y[i] == o[j + i]
    requires Bounded(ends.v.x, 16350) && Bounded(ends.v.y, 16350)
    ensures LowOf(ends) == LowAt(e, o, j) && HighOf(ends) == HighAt(e, o, j)
    ensures -16384 <= LowOf(ends) <= 16383 && -16384 <= HighOf(ends) <= 16383
  {
    hide FwdAt, RevAt, Dot, Wrap16, PartialSumsFit;
    SameFilter(ends.v.x, e, j);
    SameFilter(ends.v.y, o, j);
    DotIsFwd(ends.v.x);
    DotIsRev(ends.v.y);
    SplitIsLossless(ends.v.x, ends.v.y);
  }

  lemma SpansAreLimited(amp: seq<int16>, n: nat)
    requires 23 <= n && 2 * n <= |amp|
    ensures Limited23(EvenSpan(amp, n)) && Limited23(OddSpan(amp, n))
    ensures EvenSpan(amp, n)[11] == Limited(amp[2 * (n - 12)]) && OddSpan(amp, n)[11] == Limited(amp[2 * (n - 12) + 1])
  {
    hide EvenSpan, OddSpan;
    assert n - 23 + 11 == n - 12;
  }

  lemma SumOfSubBandsFits(low: int16, high: int16)
    requires -16384 <= low <= 16383 && -16384 <= high <= 16383
    ensures Wrap16(low as int + high as int) == low as int + high as int && Wrap16(low as int - high as int) == low as int - high as int
  {
  }

  lemma ReceivedSpan(cfg: Config, v: EncoderValue, w: DecoderValue, amp: seq<int16>, n: nat)
    requires Wideband(cfg) && 23 <= n && 2 * n <= |amp|
    ensures var e, o, ends := EvenSpan(amp, n), OddSpan(amp, n), Linked(cfg, v, w, amp, n);
            ends.w.x == Sums(e, o) && ends.w.y == Differences(e, o)
  {
    hide Linked, LowAt, HighAt, LowOf, HighOf, EvenSpan, OddSpan, Wrap16;
    forall j | 0 <= j < 12
      ensures var e, o, ends := EvenSpan(amp, n), OddSpan(amp, n), Linked(cfg, v, w, amp, n);
              ends.w.x[j] == Sums(e, o)[j] && ends.w.y[j] == Differences(e, o)[j]
    {
      ReceiveWindow(cfg, v, w, amp, n, j);
      SubBandsOfSpan(cfg, v, w, amp, n, j);
      var ends := Linked(cfg, v, w, amp, n + j - 11);
      SumOfSubBandsFits(LowOf(ends), HighOf(ends));
    }
  }

  /** Section 3.1 of ITU-T G.722: without quantization the receive filters return every pair
      of samples, limited as the transmitter limits them, eleven pairs later and in the
      same order, to within 43 and 45 units. */
  lemma SamplesComeBack(cfg: Config, v: EncoderValue, w: DecoderValue, amp: seq<int16>, n: nat)
    requires Wideband(cfg) && 23 <= n && 2 * n <= |amp|
    ensures var out := Linked(cfg, v, w, amp, n).out;
            && Abs(out[2 * n - 2] as int - Limited(amp[2 * (n - 12)]) as int) <= 43
            && Abs(out[2 * n - 1] as int - Limited(amp[2 * (n - 12) + 1]) as int) <= 45
  {
    hide Linked, FwdAt, RevAt, Dot, Limited23, EvenSpan, OddSpan, Sums, Differences, Limited;
    var e, o, ends := EvenSpan(amp, n), OddSpan(amp, n), Linked(cfg, v, w, amp, n);
    SpansAreLimited(amp, n);
    LinkedStep(cfg, v, w, amp, n);
    ReceivedSpan(cfg, v, w, amp, n);
    DotIsRev(ends.w.y);
    DotIsFwd(ends.w.x);
    EvenReturns(e, o);
    OddReturns(e, o);
    SaturateIsNearest(RevAt(Differences(e, o), 0) / 2048, Limited(amp[2 * (n - 12)]));
    SaturateIsNearest(FwdAt(Sums(e, o), 0) / 2048, Limited(amp[2 * (n - 12) + 1]));
  }

  /** In the other modes nothing is filtered: the sample comes back without its lowest bit. */
  lemma PlainSamplesComeBack(cfg: Config, v: EncoderValue, w: DecoderValue, amp: seq<int16>, pending: Pending)
    requires !Wideband(cfg) && amp != []
    ensures var s := SplitBands(cfg, v, amp);
            var out := JoinBands(cfg, w, w.bands, pending, s.xlow, s.xhigh).amp;
            forall k :: 0 <= k < |out| ==> out[k] == amp[0] / 2 * 2
    ensures |JoinBands(cfg, w, w.bands, pending, SplitBands(cfg, v, amp).xlow, SplitBands(cfg, v, amp).xhigh).amp| > 0
  {
  }
}
