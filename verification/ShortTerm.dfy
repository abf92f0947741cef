/** The short-term filters of gsm0610_short_term.c (sections 4.2.8 to 4.2.10 and
    4.3.4 of GSM 06.10): the lattice analysis filter of the encoder, the lattice
    synthesis filter of the decoder, and the proof that the second undoes the first. */
module ShortTerm {
  import opened Saturated
  import opened GsmState

  /** Reflection coefficients: fractions strictly above -1. */
  type Rp8 = s: Vec8 | forall i :: 0 <= i < 8 ==> s[i] >= -0x7FFF witness [0, 0, 0, 0, 0, 0, 0, 0]

  // ---- 4.2.8: decoding of the coded log-area ratios ----

  function LarStep(c: int16, b: int16, mic: int16, inva: int16): int16 {
    var t1 := Wrap16(Add16(c, mic) * 1024);
    var t2 := Sub16(t1, Wrap16(b * 2));
    var t3 := MultR(inva, t2);
    Add16(t3, t3)
  }

  /** The columns B, MIC and INVA of the STEP macro. */
  const LAR_B: Vec8 := [0, 0, 2048, -2560, 94, -1792, -341, -1144]
  const LAR_MIC: Vec8 := [-32, -32, -16, -16, -8, -8, -4, -4]
  const LAR_INVA: Vec8 := [13107, 13107, 13107, 13107, 19223, 17476, 31454, 29708]

  function DecodeLogAreaRatios(larc: Vec8): Vec8 {
    seq(8, i requires 0 <= i < 8 => LarStep(larc[i], LAR_B[i], LAR_MIC[i], LAR_INVA[i]))
  }

  // ---- 4.2.9.1: interpolation between the previous and the current ratios ----

  /** Weights of the four segments: 3/4 + 1/4, 1/2 + 1/2, 1/4 + 3/4, 0 + 1. */
  function Interpolate(segment: nat, previous: int16, current: int16): int16
    requires segment < 4
  {
    match segment
    case 0 => Add16(Add16(previous / 4, current / 4), previous / 2)
    case 1 => Add16(previous / 2, current / 2)
    case 2 => Add16(Add16(previous / 4, current / 4), current / 2)
    case _ => current
  }

  /** Nothing saturates, and the weights are as stated up to the bits that the shifts
      drop. */
  lemma InterpolationWeights(segment: nat, previous: int16, current: int16)
    requires segment < 4
    ensures var w := if segment == 0 then 3 else if segment == 1 then 2 else if segment == 2 then 1 else 0;
            -8 <= 4 * Interpolate(segment, previous, current) - (w * previous + (4 - w) * current) <= 0
  {
  }

  // ---- 4.2.9.2: from interpolated ratios to reflection coefficients ----

  function RpMagnitude(temp: int16): (r: int16)
    requires 0 <= temp
    ensures 0 <= r
  {
    if temp < 11059 then temp * 2
    else if temp < 20070 then temp + 11059
    else Add16(temp / 4, 26112)
  }

  function RpOf(larp: int16): (r: int16)
    ensures -0x7FFF <= r
  {
    if larp < 0 then -RpMagnitude(Abs16(larp)) else RpMagnitude(larp)
  }

  /** The decoding map is odd, except at the one value without a negation, and
      increasing: distinct orders of log-area ratios are never exchanged. */
  lemma RpOfIsOddAndMonotone(x: int16, y: int16)
    ensures x != -0x8000 ==> RpOf(-x) == -RpOf(x)
    ensures x <= y ==> RpOf(x) <= RpOf(y)
  {
  }

  function RpVector(segment: nat, previous: Vec8, current: Vec8): Rp8
    requires segment < 4
  {
    seq(8, i requires 0 <= i < 8 => RpOf(Interpolate(segment, previous[i], current[i])))
  }

  // ---- 4.2.10: the lattices, stage by stage ----

  /** Forward value entering analysis stage `i`; stage 0 receives the sample. */
  function Forward(u: Vec8, rp: Rp8, x: int16, i: nat): int16
    requires i <= 8
  {
    if i == 0 then x
    else Saturate(Forward(u, rp, x, i - 1) + RoundMul(rp[i - 1], u[i - 1]))
  }

  /** Backward value leaving analysis stage `i - 1`, stored as the new u[i]. */
  function Backward(u: Vec8, rp: Rp8, x: int16, i: nat): int16
    requires i <= 8
  {
    if i == 0 then x
    else Saturate(u[i - 1] + RoundMul(rp[i - 1], Forward(u, rp, x, i - 1)))
  }

  function NextU(u: Vec8, rp: Rp8, x: int16): Vec8 {
    seq(8, i requires 0 <= i < 8 => Backward(u, rp, x, i))
  }

  /** Value of `sri` once the synthesis stages 7 down to `i` are done. */
  function Rebuilt(v: Vec8, rp: Rp8, w: int16, i: nat): int16
    requires i <= 8
    decreases 8 - i
  {
    if i == 8 then w
    else Sub16(Rebuilt(v, rp, w, i + 1), MultR(rp[i], v[i]))
  }

  /** The first eight entries of the delay line `v` after one sample.  The ninth,
      v[8], is written by the filter and never read. */
  function NextV(v: Vec8, rp: Rp8, w: int16): Vec8 {
    seq(8, i requires 0 <= i < 8 =>
      if i == 0 then Rebuilt(v, rp, w, 0)
      else Add16(v[i - 1], MultR(rp[i - 1], Rebuilt(v, rp, w, i - 1))))
  }

  /** No saturation on the forward path of analysis stage `i`. */
  predicate Unclipped(u: Vec8, rp: Rp8, x: int16, i: nat)
    requires i < 8
  {
    -0x8000 <= Forward(u, rp, x, i) + RoundMul(rp[i], u[i]) <= 0x7FFF
  }

  predicate NoClip(u: Vec8, rp: Rp8, x: int16) {
    forall i :: 0 <= i < 8 ==> Unclipped(u, rp, x, i)
  }

  lemma MultRIsRoundMul(a: int16, b: int16)
    requires a != -0x8000
    ensures MultR(a, b) == RoundMul(a, b)
  {
  }

  /** Synthesis from the same memory retraces the forward values of the analysis. */
  lemma {:induction false} Retrace(u: Vec8, rp: Rp8, x: int16, i: nat)
    requires i <= 8
    requires forall k :: i <= k < 8 ==> Unclipped(u, rp, x, k)
    ensures Rebuilt(u, rp, Forward(u, rp, x, 8), i) == Forward(u, rp, x, i)
    decreases 8 - i
  {
    if i < 8 {
      Retrace(u, rp, x, i + 1);
      assert Unclipped(u, rp, x, i);
      MultRIsRoundMul(rp[i], u[i]);
    }
  }

  /** A stage that clips is not retraced, whatever comes after it. */
  lemma ClippedStageIsLost(u: Vec8, rp: Rp8, x: int16, i: nat)
    requires i < 8 && !Unclipped(u, rp, x, i)
    requires Rebuilt(u, rp, Forward(u, rp, x, 8), i + 1) == Forward(u, rp, x, i + 1)
    ensures Rebuilt(u, rp, Forward(u, rp, x, 8), i) != Forward(u, rp, x, i)
  {
    MultRIsRoundMul(rp[i], u[i]);
    RoundMulBounds(rp[i], u[i]);
  }

  predicate Retraced(u: Vec8, rp: Rp8, x: int16) {
    forall i :: 0 <= i <= 8 ==> Rebuilt(u, rp, Forward(u, rp, x, 8), i) == Forward(u, rp, x, i)
  }

  /** The synthesis lattice undoes every stage of the analysis lattice exactly when
      no forward sum of the analysis saturates. */
  lemma RetracedIffNoClip(u: Vec8, rp: Rp8, x: int16)
    ensures Retraced(u, rp, x) <==> NoClip(u, rp, x)
  {
    if NoClip(u, rp, x) {
      forall i | 0 <= i <= 8
        ensures Rebuilt(u, rp, Forward(u, rp, x, 8), i) == Forward(u, rp, x, i)
      {
        Retrace(u, rp, x, i);
      }
    } else {
      var i :| 0 <= i < 8 && !Unclipped(u, rp, x, i);
      if Retraced(u, rp, x) {
        ClippedStageIsLost(u, rp, x, i);
        assert false;
      }
    }
  }

  /** One sample: the decoder gets the sample back and its memory stays equal to
      the encoder's.  Saturation on the backward path is harmless, because both
      filters saturate the same sum. */
  lemma SampleReconstruction(u: Vec8, rp: Rp8, x: int16)
    requires NoClip(u, rp, x)
    ensures Rebuilt(u, rp, Forward(u, rp, x, 8), 0) == x
    ensures NextV(u, rp, Forward(u, rp, x, 8)) == NextU(u, rp, x)
  {
    var w := Forward(u, rp, x, 8);
    RetracedIffNoClip(u, rp, x);
    forall i | 0 <= i < 8
      ensures NextV(u, rp, w)[i] == NextU(u, rp, x)[i]
    {
      assert Rebuilt(u, rp, w, i) == Forward(u, rp, x, i);
      if i > 0 {
        assert Rebuilt(u, rp, w, i - 1) == Forward(u, rp, x, i - 1);
        MultRIsRoundMul(rp[i - 1], Forward(u, rp, x, i - 1));
      }
    }
  }

  // ---- samples whose forward path clips ----

  predicate ClipsHigh(u: Vec8, rp: Rp8, x: int16, i: nat)
    requires i < 8
  {
    Forward(u, rp, x, i) + RoundMul(rp[i], u[i]) > 0x7FFF
  }

  predicate ClipsLow(u: Vec8, rp: Rp8, x: int16, i: nat)
    requires i < 8
  {
    Forward(u, rp, x, i) + RoundMul(rp[i], u[i]) < -0x8000
  }

  /** A clipped stage from `i` on whose error reaches the forward value at `i`: on its
      way down it is absorbed only where the forward value is `floor`, the end of the
      range that the error points to. */
  predicate ErrorReaches(u: Vec8, rp: Rp8, x: int16, i: nat, floor: int16)
    requires i <= 8
    decreases 8 - i
  {
    i < 8 && (!Unclipped(u, rp, x, i) || (ErrorReaches(u, rp, x, i + 1, floor) && Forward(u, rp, x, i) != floor))
  }

  lemma {:induction false} HighClipsLower(u: Vec8, rp: Rp8, x: int16, i: nat)
    requires i <= 8 && forall k :: i <= k < 8 ==> !ClipsLow(u, rp, x, k)
    ensures var r, f := Rebuilt(u, rp, Forward(u, rp, x, 8), i), Forward(u, rp, x, i);
            r <= f && (r < f <==> ErrorReaches(u, rp, x, i, -0x8000))
    decreases 8 - i
  {
    if i < 8 {
      HighClipsLower(u, rp, x, i + 1);
      assert !ClipsLow(u, rp, x, i);
      MultRIsRoundMul(rp[i], u[i]);
      RoundMulBounds(rp[i], u[i]);
    }
  }

  lemma {:induction false} LowClipsRaise(u: Vec8, rp: Rp8, x: int16, i: nat)
    requires i <= 8 && forall k :: i <= k < 8 ==> !ClipsHigh(u, rp, x, k)
    ensures var r, f := Rebuilt(u, rp, Forward(u, rp, x, 8), i), Forward(u, rp, x, i);
            r >= f && (r > f <==> ErrorReaches(u, rp, x, i, 0x7FFF))
    decreases 8 - i
  {
    if i < 8 {
      LowClipsRaise(u, rp, x, i + 1);
      assert !ClipsHigh(u, rp, x, i);
      MultRIsRoundMul(rp[i], u[i]);
      RoundMulBounds(rp[i], u[i]);
    }
  }

  /** Exactly when a sample is lost, if its stages clip at one end of the range only, and
      so whenever a single stage clips: the error of some clipped stage meets no lower
      forward value at the opposite end. */
  lemma LostIffErrorReaches(u: Vec8, rp: Rp8, x: int16)
    ensures (forall k :: 0 <= k < 8 ==> !ClipsLow(u, rp, x, k))
        ==> (Rebuilt(u, rp, Forward(u, rp, x, 8), 0) != x <==> ErrorReaches(u, rp, x, 0, -0x8000))
    ensures (forall k :: 0 <= k < 8 ==> !ClipsHigh(u, rp, x, k))
        ==> (Rebuilt(u, rp, Forward(u, rp, x, 8), 0) != x <==> ErrorReaches(u, rp, x, 0, 0x7FFF))
  {
    if forall k :: 0 <= k < 8 ==> !ClipsLow(u, rp, x, k) { HighClipsLower(u, rp, x, 0); }
    if forall k :: 0 <= k < 8 ==> !ClipsHigh(u, rp, x, k) { LowClipsRaise(u, rp, x, 0); }
  }

  /** What the forward sum of stage `i` loses to saturation. */
  function Excess(u: Vec8, rp: Rp8, x: int16, i: nat): int
    requires i < 8
  {
    Forward(u, rp, x, i) + RoundMul(rp[i], u[i]) - Forward(u, rp, x, i + 1)
  }

  /** The error of the synthesis at stage `i`, from the excesses of the stages above. */
  function ErrorAt(u: Vec8, rp: Rp8, x: int16, i: nat): int
    requires i <= 8
    decreases 8 - i
  {
    if i == 8 then 0
    else Saturate(Forward(u, rp, x, i) + ErrorAt(u, rp, x, i + 1) - Excess(u, rp, x, i)) - Forward(u, rp, x, i)
  }

  lemma {:induction false} RebuiltWithError(u: Vec8, rp: Rp8, x: int16, i: nat)
    requires i <= 8
    ensures Rebuilt(u, rp, Forward(u, rp, x, 8), i) == Forward(u, rp, x, i) + ErrorAt(u, rp, x, i)
    decreases 8 - i
  {
    if i < 8 {
      RebuiltWithError(u, rp, x, i + 1);
      MultRIsRoundMul(rp[i], u[i]);
      hide RoundMul, Forward;
    }
  }

  /** Whatever clips, at whichever ends: a sample comes back exactly when the errors that
      the clipped stages cause cancel out or are absorbed on the way down. */
  lemma RestoredIffErrorsVanish(u: Vec8, rp: Rp8, x: int16)
    ensures Rebuilt(u, rp, Forward(u, rp, x, 8), 0) == x <==> ErrorAt(u, rp, x, 0) == 0
    ensures forall i :: 0 <= i < 8 ==> (Excess(u, rp, x, i) == 0 <==> Unclipped(u, rp, x, i))
  {
    RebuiltWithError(u, rp, x, 0);
    forall i | 0 <= i < 8
      ensures Excess(u, rp, x, i) == 0 <==> Unclipped(u, rp, x, i)
    {
      NoExcess(u, rp, x, i);
    }
  }

  lemma NoExcess(u: Vec8, rp: Rp8, x: int16, i: nat)
    requires i < 8
    ensures Excess(u, rp, x, i) == 0 <==> Unclipped(u, rp, x, i)
  {
    assert Forward(u, rp, x, i + 1) == Saturate(Forward(u, rp, x, i) + RoundMul(rp[i], u[i]));
    hide Forward, RoundMul;
  }

  // ---- runs of samples under one set of coefficients ----

  datatype Run = Run(memory: Vec8, out: seq<int16>)

  function Analyse(u: Vec8, rp: Rp8, xs: seq<int16>): (r: Run)
    ensures |r.out| == |xs|
  {
    if xs == [] then Run(u, [])
    else
      var before := Analyse(u, rp, xs[..|xs| - 1]);
      var x := xs[|xs| - 1];
      Run(NextU(before.memory, rp, x), before.out + [Forward(before.memory, rp, x, 8)])
  }

  function Synthesise(v: Vec8, rp: Rp8, ws: seq<int16>): (r: Run)
    ensures |r.out| == |ws|
  {
    if ws == [] then Run(v, [])
    else
      var before := Synthesise(v, rp, ws[..|ws| - 1]);
      var w := ws[|ws| - 1];
      Run(NextV(before.memory, rp, w), before.out + [Rebuilt(before.memory, rp, w, 0)])
  }

  predicate NoClipRun(u: Vec8, rp: Rp8, xs: seq<int16>) {
    xs == [] ||
    var before := xs[..|xs| - 1];
    NoClipRun(u, rp, before) && NoClip(Analyse(u, rp, before).memory, rp, xs[|xs| - 1])
  }

  lemma {:induction false} RunReconstruction(u: Vec8, rp: Rp8, xs: seq<int16>)
    requires NoClipRun(u, rp, xs)
    ensures Synthesise(u, rp, Analyse(u, rp, xs).out) == Run(Analyse(u, rp, xs).memory, xs)
  {
    hide Forward, Rebuilt, NextU, NextV, NoClip;
    if xs != [] {
      var before := xs[..|xs| - 1];
      var x := xs[|xs| - 1];
      RunReconstruction(u, rp, before);
      SampleReconstruction(Analyse(u, rp, before).memory, rp, x);
      var ws := Analyse(u, rp, xs).out;
      assert ws[..|ws| - 1] == Analyse(u, rp, before).out;
      assert before + [x] == xs;
    }
  }

  // ---- frames of 160 samples, in four segments ----

  /** First sample of each segment: 0..12, 13..26, 27..39, 40..159. */
  function SegmentStart(segment: nat): nat {
    if segment == 0 then 0 else if segment == 1 then 13 else if segment == 2 then 27
    else if segment == 3 then 40 else 160
  }

  /** Applies the first `n` segments of a frame. */
  function AnalyseFrame(u: Vec8, previous: Vec8, current: Vec8, xs: seq<int16>, n: nat): (r: Run)
    requires |xs| == 160 && n <= 4
    ensures |r.out| == SegmentStart(n)
  {
    hide Analyse, RpVector, Forward, Backward, NextU;
    if n == 0 then Run(u, [])
    else
      var before := AnalyseFrame(u, previous, current, xs, n - 1);
      var part := Analyse(before.memory, RpVector(n - 1, previous, current),
                          xs[SegmentStart(n - 1)..SegmentStart(n)]);
      Run(part.memory, before.out + part.out)
  }

  function SynthesiseFrame(v: Vec8, previous: Vec8, current: Vec8, ws: seq<int16>, n: nat): (r: Run)
    requires |ws| == 160 && n <= 4
    ensures |r.out| == SegmentStart(n)
  {
    hide Synthesise, RpVector, Rebuilt, NextV;
    if n == 0 then Run(v, [])
    else
      var before := SynthesiseFrame(v, previous, current, ws, n - 1);
      var part := Synthesise(before.memory, RpVector(n - 1, previous, current),
                             ws[SegmentStart(n - 1)..SegmentStart(n)]);
      Run(part.memory, before.out + part.out)
  }

  predicate NoClipFrame(u: Vec8, previous: Vec8, current: Vec8, xs: seq<int16>, n: nat)
    requires |xs| == 160 && n <= 4
  {
    n == 0 ||
    (NoClipFrame(u, previous, current, xs, n - 1) &&
     NoClipRun(AnalyseFrame(u, previous, current, xs, n - 1).memory, RpVector(n - 1, previous, current),
               xs[SegmentStart(n - 1)..SegmentStart(n)]))
  }

  lemma {:induction false} AnalysedPrefix(u: Vec8, previous: Vec8, current: Vec8, xs: seq<int16>, n: nat, m: nat)
    requires |xs| == 160 && n <= m <= 4
    ensures AnalyseFrame(u, previous, current, xs, m).out[..SegmentStart(n)]
         == AnalyseFrame(u, previous, current, xs, n).out
    decreases m - n
  {
    hide Analyse, Synthesise, RpVector;
    if n < m {
      AnalysedPrefix(u, previous, current, xs, n, m - 1);
      assert SegmentStart(n) <= SegmentStart(m - 1);
    }
  }

  lemma {:induction false} SynthesisedPrefix(v: Vec8, previous: Vec8, current: Vec8, ws: seq<int16>, n: nat, m: nat)
    requires |ws| == 160 && n <= m <= 4
    ensures SynthesiseFrame(v, previous, current, ws, m).out[..SegmentStart(n)]
         == SynthesiseFrame(v, previous, current, ws, n).out
    decreases m - n
  {
    hide Analyse, Synthesise, RpVector;
    if n < m {
      SynthesisedPrefix(v, previous, current, ws, n, m - 1);
      assert SegmentStart(n) <= SegmentStart(m - 1);
    }
  }

  lemma {:induction false} FrameReconstruction(u: Vec8, previous: Vec8, current: Vec8, xs: seq<int16>, n: nat)
    requires |xs| == 160 && n <= 4
    requires NoClipFrame(u, previous, current, xs, n)
    ensures SynthesiseFrame(u, previous, current, AnalyseFrame(u, previous, current, xs, 4).out, n)
         == Run(AnalyseFrame(u, previous, current, xs, n).memory, xs[..SegmentStart(n)])
  {
    hide Analyse, Synthesise, NoClipRun, RpVector;
    if n > 0 {
      var ws := AnalyseFrame(u, previous, current, xs, 4).out;
      var lo, hi := SegmentStart(n - 1), SegmentStart(n);
      FrameReconstruction(u, previous, current, xs, n - 1);
      var before := AnalyseFrame(u, previous, current, xs, n - 1);
      var rp := RpVector(n - 1, previous, current);
      RunReconstruction(before.memory, rp, xs[lo..hi]);
      AnalysedPrefix(u, previous, current, xs, n, 4);
      assert ws[lo..hi] == ws[..hi][lo..];
      assert ws[lo..hi] == Analyse(before.memory, rp, xs[lo..hi]).out;
      assert xs[..lo] + xs[lo..hi] == xs[..hi];
    }
  }

  // ---- runs of frames ----

  /** What a short-term filter keeps between frames. */
  datatype Filter = Filter(memory: Vec8, LARpp: seq<Vec8>, j: nat) {
    predicate Valid() {
      |LARpp| == 2 && j < 2
    }

    /** The log-area ratios of the next frame go to row `j`; the other row holds
        those of the frame before, and the roles are then exchanged. */
    function Load(larc: Vec8): (f: Filter)
      requires Valid()
      ensures f.Valid()
    {
      this.(LARpp := LARpp[j := DecodeLogAreaRatios(larc)], j := 1 - j)
    }
  }

  datatype Frame160 = Frame160(larc: Vec8, samples: seq<int16>)

  predicate WellFormed(frames: seq<Frame160>) {
    forall k :: 0 <= k < |frames| ==> |frames[k].samples| == 160
  }

  datatype StreamRun = StreamRun(state: Filter, frames: seq<Frame160>)

  datatype FilterRun = FilterRun(state: Filter, out: seq<int16>)

  /** One frame through the analysis filter, then through the synthesis filter. */
  function AnalysisStep(f: Filter, larc: Vec8, xs: seq<int16>): (r: FilterRun)
    requires f.Valid() && |xs| == 160
    ensures r.state.Valid() && |r.out| == 160
  {
    var g := f.Load(larc);
    var run := AnalyseFrame(f.memory, g.LARpp[1 - f.j], g.LARpp[f.j], xs, 4);
    FilterRun(g.(memory := run.memory), run.out)
  }

  function SynthesisStep(f: Filter, larc: Vec8, ws: seq<int16>): (r: FilterRun)
    requires f.Valid() && |ws| == 160
    ensures r.state.Valid() && |r.out| == 160
  {
    var g := f.Load(larc);
    var run := SynthesiseFrame(f.memory, g.LARpp[1 - f.j], g.LARpp[f.j], ws, 4);
    FilterRun(g.(memory := run.memory), run.out)
  }

  /** After a frame its own ratios are the previous ones of the next frame, and the last 120
      samples of a frame are filtered with its own ratios alone. */
  lemma RatiosOfFrames(f: Filter, larc: Vec8, xs: seq<int16>, next: Vec8)
    requires f.Valid() && |xs| == 160
    ensures var g := AnalysisStep(f, larc, xs).state;
            var loaded := g.Load(next);
            loaded.LARpp[g.j] == DecodeLogAreaRatios(next) && loaded.LARpp[1 - g.j] == DecodeLogAreaRatios(larc)
    ensures forall i :: 0 <= i < 8 ==> RpVector(3, f.Load(larc).LARpp[1 - f.j], f.Load(larc).LARpp[f.j])[i]
                                       == RpOf(DecodeLogAreaRatios(larc)[i])
  {
    hide AnalyseFrame, DecodeLogAreaRatios;
  }

  // ---- a frame that loses a sample ----

  const SILENCE: Vec8 := [0, 0, 0, 0, 0, 0, 0, 0]
  const RESET: Filter := Filter(SILENCE, [SILENCE, SILENCE], 0)

  /** In-range codes: a large first ratio, the others near zero. */
  const STEEP_CODES: Vec8 := [63, 32, 20, 11, 8, 4, 4, 2]
  const STEEP: Rp8 := [12696, 0, 0, 0, -110, -274, 654, 218]
  /** The memory that the sample 32000 leaves behind in an empty lattice. */
  const STEEP_MEMORY: Vec8 := [32000, 12398, 0, 0, 0, -107, -268, 639]

  /** One row of the table, with the rounded product `q` given. */
  lemma RatioOf(c: int16, b: int16, mic: int16, inva: int16, t: int, q: int)
    requires -32 <= mic < 0 <= c <= 63 && c + mic <= 31 && -0x4000 <= b <= 0x3FFF && 0 < inva
    requires t == (c + mic) * 1024 - 2 * b && -0x8000 <= t <= 0x7FFF
    requires 0x8000 * q <= inva * t + 0x4000 < 0x8000 * q + 0x8000 && -0x4000 <= q <= 0x3FFF
    ensures LarStep(c, b, mic, inva) == 2 * q
  {
    ProductIsTimes(inva, t);
    assert RoundMul(inva, t) == q;
    hide RoundMul, Product;
    assert Add16(c, mic) == c + mic;
    assert Wrap16((c + mic) * 1024) == (c + mic) * 1024 && Wrap16(b * 2) == b * 2;
  }

  lemma SteepRatios()
    ensures DecodeLogAreaRatios(STEEP_CODES) == [25394, 0, 0, 0, -220, -546, 1310, 436]
  {
    hide LarStep;
    RatioOf(63, 0, -32, 13107, 31744, 12697);
    RatioOf(32, 0, -32, 13107, 0, 0);
    RatioOf(20, 2048, -16, 13107, 0, 0);
    RatioOf(11, -2560, -16, 13107, 0, 0);
    RatioOf(8, 94, -8, 19223, -188, -110);
    RatioOf(4, -1792, -8, 17476, -512, -273);
    RatioOf(4, -341, -4, 31454, 682, 655);
    RatioOf(2, -1144, -4, 29708, 240, 218);
  }

  lemma SteepCoefficients()
    ensures RpVector(0, SILENCE, DecodeLogAreaRatios(STEEP_CODES)) == STEEP
  {
    SteepRatios();
    hide DecodeLogAreaRatios;
  }

  /** An empty lattice lets a sample through unchanged. */
  lemma {:induction false} EmptyLattice(rp: Rp8, x: int16, i: nat)
    requires i <= 8
    ensures Forward(SILENCE, rp, x, i) == x && (i < 8 ==> Unclipped(SILENCE, rp, x, i))
  {
    if i > 0 {
      EmptyLattice(rp, x, i - 1);
      ProductIsTimes(rp[i - 1], SILENCE[i - 1]);
    }
    if i < 8 { ProductIsTimes(rp[i], SILENCE[i]); }
  }

  /** What an empty lattice remembers at entry `i`, with the rounded product given. */
  lemma Remembered(rp: Rp8, x: int16, i: nat, q: int16)
    requires 1 <= i < 8 && 0x8000 * q <= rp[i - 1] * x + 0x4000 < 0x8000 * q + 0x8000
    ensures NextU(SILENCE, rp, x)[i] == q
  {
    EmptyLattice(rp, x, i - 1);
    ProductIsTimes(rp[i - 1], x);
    hide Forward, Product;
  }

  lemma EmptyIsUnclipped(rp: Rp8, x: int16)
    ensures NoClip(SILENCE, rp, x) && NextU(SILENCE, rp, x)[0] == x
  {
    forall i | 0 <= i < 8
      ensures Unclipped(SILENCE, rp, x, i)
    {
      EmptyLattice(rp, x, i);
    }
  }

  lemma FirstSteepSample()
    ensures NextU(SILENCE, STEEP, 32000) == STEEP_MEMORY
  {
    hide NextU;
    EmptyIsUnclipped(STEEP, 32000);
    Remembered(STEEP, 32000, 1, 12398);
    Remembered(STEEP, 32000, 2, 0);
    Remembered(STEEP, 32000, 3, 0);
    Remembered(STEEP, 32000, 4, 0);
    Remembered(STEEP, 32000, 5, -107);
    Remembered(STEEP, 32000, 6, -268);
    Remembered(STEEP, 32000, 7, 639);
  }

  lemma SecondSteepSampleIsLost()
    ensures Rebuilt(STEEP_MEMORY, STEEP, Forward(STEEP_MEMORY, STEEP, 32000, 8), 0) != 32000
  {
    ProductIsTimes(12696, 32000);
    assert Forward(STEEP_MEMORY, STEEP, 32000, 1) == 32767;
    forall k | 0 <= k < 8
      ensures !ClipsLow(STEEP_MEMORY, STEEP, 32000, k)
    {
      if k > 0 { StaysHigh(k); }
      RoundMulBounds(STEEP[k], STEEP_MEMORY[k]);
    }
    LostIffErrorReaches(STEEP_MEMORY, STEEP, 32000);
    assert !Unclipped(STEEP_MEMORY, STEEP, 32000, 0);
  }

  /** Every further stage moves the forward value by less than its memory holds. */
  lemma {:induction false} StaysHigh(i: nat)
    requires 1 <= i <= 8
    requires Forward(STEEP_MEMORY, STEEP, 32000, 1) == 32767
    ensures Forward(STEEP_MEMORY, STEEP, 32000, i) >= 32767 - (if i == 1 then 0 else 12398 + 639 * (i - 2))
  {
    if i > 1 {
      StaysHigh(i - 1);
      RoundMulBounds(STEEP[i - 1], STEEP_MEMORY[i - 1]);
    }
  }

  lemma {:induction false} AnalysedSamples(u: Vec8, rp: Rp8, xs: seq<int16>, n: nat)
    requires n <= |xs|
    ensures Analyse(u, rp, xs).out[..n] == Analyse(u, rp, xs[..n]).out
    decreases |xs|
  {
    hide Forward, NextU;
    if n == |xs| {
      assert xs[..n] == xs;
    } else {
      AnalysedSamples(u, rp, xs[..|xs| - 1], n);
      assert xs[..|xs| - 1][..n] == xs[..n];
    }
  }

  lemma {:induction false} SynthesisedSamples(v: Vec8, rp: Rp8, ws: seq<int16>, n: nat)
    requires n <= |ws|
    ensures Synthesise(v, rp, ws).out[..n] == Synthesise(v, rp, ws[..n]).out
    decreases |ws|
  {
    hide Rebuilt, NextV;
    if n == |ws| {
      assert ws[..n] == ws;
    } else {
      SynthesisedSamples(v, rp, ws[..|ws| - 1], n);
      assert ws[..|ws| - 1][..n] == ws[..n];
    }
  }

  /** The first two samples through both lattices. */
  lemma OneSample(u: Vec8, rp: Rp8, x: int16)
    ensures Analyse(u, rp, [x]) == Run(NextU(u, rp, x), [Forward(u, rp, x, 8)])
    ensures Synthesise(u, rp, [x]) == Run(NextV(u, rp, x), [Rebuilt(u, rp, x, 0)])
  {
    hide Forward, NextU, Rebuilt, NextV;
    assert [x][..0] == [];
  }

  /** The second of two samples through both lattices. */
  lemma TwoSamples(rp: Rp8, x: int16, y: int16)
    requires NoClip(SILENCE, rp, x)
    ensures var ws := Analyse(SILENCE, rp, [x, y]).out;
            |ws| == 2 &&
            Synthesise(SILENCE, rp, ws).out[1]
            == Rebuilt(NextU(SILENCE, rp, x), rp, Forward(NextU(SILENCE, rp, x), rp, y, 8), 0)
  {
    hide Forward, NextU, Rebuilt, NextV, NoClip;
    SampleReconstruction(SILENCE, rp, x);
    OneSample(SILENCE, rp, x);
    var w := Forward(SILENCE, rp, x, 8);
    OneSample(SILENCE, rp, w);
    assert [x, y][..1] == [x];
    var ws := Analyse(SILENCE, rp, [x, y]).out;
    assert ws[..1] == [w];
  }

  /** The first samples of a frame depend on the first coefficients only. */
  lemma StartOfFrame(larc: Vec8, xs: seq<int16>)
    requires |xs| == 160
    ensures var rp := RpVector(0, SILENCE, DecodeLogAreaRatios(larc));
            var ws := AnalysisStep(RESET, larc, xs).out;
            ws[..2] == Analyse(SILENCE, rp, xs[..2]).out
            && SynthesisStep(RESET, larc, ws).out[..2] == Synthesise(SILENCE, rp, ws[..2]).out
  {
    hide Analyse, Synthesise, RpVector, DecodeLogAreaRatios;
    var current := DecodeLogAreaRatios(larc);
    var rp := RpVector(0, SILENCE, current);
    var ws := AnalyseFrame(SILENCE, SILENCE, current, xs, 4).out;
    AnalysedPrefix(SILENCE, SILENCE, current, xs, 1, 4);
    SynthesisedPrefix(SILENCE, SILENCE, current, ws, 1, 4);
    AnalysedSamples(SILENCE, rp, xs[..13], 2);
    SynthesisedSamples(SILENCE, rp, ws[..13], 2);
    FirstSegment(SILENCE, SILENCE, current, xs);
    FirstSegment(SILENCE, SILENCE, current, ws);
    hide AnalyseFrame, SynthesiseFrame;
    assert xs[..13][..2] == xs[..2] && ws[..13][..2] == ws[..2];
    var zs := SynthesiseFrame(SILENCE, SILENCE, current, ws, 4).out;
    assert zs[..13][..2] == zs[..2];
  }

  lemma FirstSegment(u: Vec8, previous: Vec8, current: Vec8, xs: seq<int16>)
    requires |xs| == 160
    ensures AnalyseFrame(u, previous, current, xs, 1).out == Analyse(u, RpVector(0, previous, current), xs[..13]).out
    ensures SynthesiseFrame(u, previous, current, xs, 1).out == Synthesise(u, RpVector(0, previous, current), xs[..13]).out
  {
    hide Analyse, Synthesise, RpVector;
    assert xs[0..13] == xs[..13];
  }

  /** Clipping does lose samples: from reset, with in-range codes, a frame that starts
      with 32000 twice clips at its second sample and comes back changed there. */
  lemma ClippingLosesASample(xs: seq<int16>)
    requires |xs| == 160 && xs[0] == xs[1] == 32000
    ensures SynthesisStep(RESET, STEEP_CODES, AnalysisStep(RESET, STEEP_CODES, xs).out).out[1] != xs[1]
  {
    hide AnalysisStep, SynthesisStep, Analyse, Synthesise, NextU, Forward, Rebuilt, NoClip, RpVector, DecodeLogAreaRatios;
    var ws := AnalysisStep(RESET, STEEP_CODES, xs).out;
    assert xs[..2] == [32000, 32000];
    StartOfFrame(STEEP_CODES, xs);
    SteepCoefficients();
    FirstSteepSample();
    EmptyIsUnclipped(STEEP, 32000);
    TwoSamples(STEEP, 32000, 32000);
    SecondSteepSampleIsLost();
    var zs := SynthesisStep(RESET, STEEP_CODES, ws).out;
    assert zs[1] == zs[..2][1];
  }

  predicate NoClipStep(f: Filter, larc: Vec8, xs: seq<int16>)
    requires f.Valid() && |xs| == 160
  {
    var g := f.Load(larc);
    NoClipFrame(f.memory, g.LARpp[1 - f.j], g.LARpp[f.j], xs, 4)
  }

  /** Residual frames produced from a stream of frames, and the final state. */
  function AnalyseStream(f: Filter, frames: seq<Frame160>): (r: StreamRun)
    requires f.Valid() && WellFormed(frames)
    ensures r.state.Valid() && |r.frames| == |frames| && WellFormed(r.frames)
    decreases |frames|
  {
    hide AnalysisStep, DecodeLogAreaRatios;
    if frames == [] then StreamRun(f, [])
    else
      var step := AnalysisStep(f, frames[0].larc, frames[0].samples);
      var rest := AnalyseStream(step.state, frames[1..]);
      StreamRun(rest.state, [Frame160(frames[0].larc, step.out)] + rest.frames)
  }

  function SynthesiseStream(f: Filter, frames: seq<Frame160>): (r: StreamRun)
    requires f.Valid() && WellFormed(frames)
    ensures r.state.Valid() && |r.frames| == |frames| && WellFormed(r.frames)
    decreases |frames|
  {
    hide SynthesisStep, DecodeLogAreaRatios;
    if frames == [] then StreamRun(f, [])
    else
      var step := SynthesisStep(f, frames[0].larc, frames[0].samples);
      var rest := SynthesiseStream(step.state, frames[1..]);
      StreamRun(rest.state, [Frame160(frames[0].larc, step.out)] + rest.frames)
  }

  predicate NoClipStream(f: Filter, frames: seq<Frame160>)
    requires f.Valid() && WellFormed(frames)
    decreases |frames|
  {
    frames == [] ||
    (NoClipStep(f, frames[0].larc, frames[0].samples) &&
     NoClipStream(AnalysisStep(f, frames[0].larc, frames[0].samples).state, frames[1..]))
  }

  /** Perfect reconstruction over every run of frames: synthesis, started in the
      state of the analysis and fed its residual and the same coded ratios, returns
      every sample and ends in the same state. */
  lemma {:induction false} StreamReconstruction(f: Filter, frames: seq<Frame160>)
    requires f.Valid() && WellFormed(frames)
    requires NoClipStream(f, frames)
    ensures SynthesiseStream(f, AnalyseStream(f, frames).frames) == StreamRun(AnalyseStream(f, frames).state, frames)
    decreases |frames|
  {
    hide AnalyseFrame, SynthesiseFrame, NoClipFrame, DecodeLogAreaRatios;
    if frames != [] {
      var larc, xs := frames[0].larc, frames[0].samples;
      var g := f.Load(larc);
      FrameReconstruction(f.memory, g.LARpp[1 - f.j], g.LARpp[f.j], xs, 4);
      assert xs[..SegmentStart(4)] == xs;
      var step := AnalysisStep(f, larc, xs);
      assert SynthesisStep(f, larc, step.out) == FilterRun(step.state, xs);
      StreamReconstruction(step.state, frames[1..]);
      var residual := AnalyseStream(f, frames).frames;
      assert residual[1..] == AnalyseStream(step.state, frames[1..]).frames;
      assert frames == [frames[0]] + frames[1..];
    }
  }

  // ---- the procedures of the source ----

  method Coefficients0To12(previous: Vec8, current: Vec8, larp: array<int16>)
    requires larp.Length == 8
    modifies larp
    ensures forall i :: 0 <= i < 8 ==> larp[i] == Interpolate(0, previous[i], current[i])
  {
    for i := 0 to 8
      invariant forall k :: 0 <= k < i ==> larp[k] == Interpolate(0, previous[k], current[k])
    {
      larp[i] := Add16(previous[i] / 4, current[i] / 4);
      larp[i] := Add16(larp[i], previous[i] / 2);
    }
  }

  method Coefficients13To26(previous: Vec8, current: Vec8, larp: array<int16>)
    requires larp.Length == 8
    modifies larp
    ensures forall i :: 0 <= i < 8 ==> larp[i] == Interpolate(1, previous[i], current[i])
  {
    for i := 0 to 8
      invariant forall k :: 0 <= k < i ==> larp[k] == Interpolate(1, previous[k], current[k])
    {
      larp[i] := Add16(previous[i] / 2, current[i] / 2);
    }
  }

  method Coefficients27To39(previous: Vec8, current: Vec8, larp: array<int16>)
    requires larp.Length == 8
    modifies larp
    ensures forall i :: 0 <= i < 8 ==> larp[i] == Interpolate(2, previous[i], current[i])
  {
    for i := 0 to 8
      invariant forall k :: 0 <= k < i ==> larp[k] == Interpolate(2, previous[k], current[k])
    {
      larp[i] := Add16(previous[i] / 4, current[i] / 4);
      larp[i] := Add16(larp[i], current[i] / 2);
    }
  }

  method Coefficients40To159(current: Vec8, larp: array<int16>)
    requires larp.Length == 8
    modifies larp
    ensures forall i :: 0 <= i < 8 ==> larp[i] == current[i]
  {
    for i := 0 to 8
      invariant forall k :: 0 <= k < i ==> larp[k] == current[k]
    {
      larp[i] := current[i];
    }
  }

  method LarpToRp(larp: array<int16>)
    requires larp.Length == 8
    modifies larp
    ensures forall i :: 0 <= i < 8 ==> larp[i] == RpOf(old(larp[i]))
  {
    for i := 0 to 8
      invariant forall k :: 0 <= k < i ==> larp[k] == RpOf(old(larp[k]))
      invariant forall k :: i <= k < 8 ==> larp[k] == old(larp[k])
    {
      var temp := larp[i];
      if temp < 0 {
        temp := if temp == -0x8000 then 0x7FFF else -temp;
        if temp < 11059 { temp := temp * 2; }
        else if temp < 20070 { temp := temp + 11059; }
        else { temp := Add16(temp / 4, 26112); }
        larp[i] := -temp;
      } else {
        if temp < 11059 { temp := temp * 2; }
        else if temp < 20070 { temp := temp + 11059; }
        else { temp := Add16(temp / 4, 26112); }
        larp[i] := temp;
      }
    }
  }

  /** One sample through the analysis lattice, with the memory updated in place. */
  method AnalysisSample(u: array<int16>, rp: array<int16>, x: int16) returns (di: int16)
    requires u.Length == 8 && rp.Length == 8 && u != rp
    requires forall i :: 0 <= i < 8 ==> rp[i] >= -0x7FFF
    modifies u
    ensures di == Forward(old(u[..]), rp[..], x, 8)
    ensures u[..] == NextU(old(u[..]), rp[..], x)
  {
    ghost var u0: Vec8 := u[..];
    ghost var r: Rp8 := rp[..];
    var uOut: int16 := x;
    di := x;
    for i := 0 to 8
      invariant rp[..] == r
      invariant di == Forward(u0, r, x, i) && uOut == Backward(u0, r, x, i)
      invariant forall k :: 0 <= k < i ==> u[k] == Backward(u0, r, x, k)
      invariant forall k :: i <= k < 8 ==> u[k] == u0[k]
    {
      var ui := u[i];
      u[i] := uOut;
      var rpi := rp[i];
      assert rpi == r[i] && ui == u0[i];
      var nextOut := ui + RoundMul(rpi, di);
      var nextDi := di + RoundMul(rpi, ui);
      uOut := Saturate(nextOut);
      di := Saturate(nextDi);
    }
  }

  method ShortTermAnalysisFiltering(u: array<int16>, rp: array<int16>, kN: nat, amp: array<int16>, start: nat)
    requires u.Length == 8 && rp.Length == 8 && u != rp && amp != u && amp != rp
    requires forall i :: 0 <= i < 8 ==> rp[i] >= -0x7FFF
    requires start + kN <= amp.Length
    modifies u, amp
    ensures var run := Analyse(old(u[..]), rp[..], old(amp[start..start + kN]));
            u[..] == run.memory && amp[start..start + kN] == run.out
    ensures amp[..start] == old(amp[..start]) && amp[start + kN..] == old(amp[start + kN..])
  {
    hide Forward, Backward, NextU, Rebuilt, NextV, NoClip;
    ghost var u0: Vec8 := u[..];
    ghost var r: Rp8 := rp[..];
    ghost var xs := amp[start..start + kN];
    for i := 0 to kN
      invariant rp[..] == r
      invariant u[..] == Analyse(u0, r, xs[..i]).memory
      invariant amp[start..start + i] == Analyse(u0, r, xs[..i]).out
      invariant amp[start + i..] == old(amp[start + i..])
      invariant amp[..start] == old(amp[..start])
    {
      assert amp[start + i] == amp[start + i..][0] == xs[i];
      assert xs[..i + 1][..i] == xs[..i];
      amp[start + i] := AnalysisSample(u, rp, amp[start + i]);
      assert amp[start + i + 1..] == old(amp[start + i..])[1..];
    }
    assert xs[..kN] == xs;
  }

  /** One sample through the synthesis lattice, with the memory updated in place. */
  method SynthesisSample(v: array<int16>, rrp: array<int16>, w: int16) returns (sri: int16)
    requires v.Length == 9 && rrp.Length == 8 && v != rrp
    requires forall i :: 0 <= i < 8 ==> rrp[i] >= -0x7FFF
    modifies v
    ensures sri == Rebuilt(old(v[..8]), rrp[..], w, 0)
    ensures v[..8] == NextV(old(v[..8]), rrp[..], w)
  {
    hide MultR, Add16, Sub16;
    ghost var v0: Vec8 := v[..8];
    ghost var r: Rp8 := rrp[..];
    sri := w;
    for i := 8 downto 0
      invariant rrp[..] == r
      invariant sri == Rebuilt(v0, r, w, i)
      invariant forall k :: 0 <= k <= i && k < 8 ==> v[k] == v0[k]
      invariant forall k :: i < k < 8 ==> v[k] == Add16(v0[k - 1], MultR(r[k - 1], Rebuilt(v0, r, w, k - 1)))
    {
      var tmp1 := rrp[i];
      assert tmp1 == r[i] && v[i] == v0[i];
      sri := Sub16(sri, MultR(tmp1, v[i]));
      v[i + 1] := Add16(v[i], MultR(tmp1, sri));
    }
    v[0] := sri;
  }

  method ShortTermSynthesisFiltering(v: array<int16>, rrp: array<int16>, k: nat, wt: array<int16>, sr: array<int16>,
                                     start: nat)
    requires v.Length == 9 && rrp.Length == 8 && v != rrp && sr != v && sr != rrp && wt != v && wt != rrp && wt != sr
    requires forall i :: 0 <= i < 8 ==> rrp[i] >= -0x7FFF
    requires start + k <= wt.Length && start + k <= sr.Length
    modifies v, sr
    ensures var run := Synthesise(old(v[..8]), rrp[..], wt[start..start + k]);
            v[..8] == run.memory && sr[start..start + k] == run.out
    ensures sr[..start] == old(sr[..start]) && sr[start + k..] == old(sr[start + k..])
  {
    hide Forward, Backward, NextU, Rebuilt, NextV, NoClip;
    ghost var v0: Vec8 := v[..8];
    ghost var r: Rp8 := rrp[..];
    ghost var ws := wt[start..start + k];
    for i := 0 to k
      invariant rrp[..] == r && wt[start..start + k] == ws
      invariant v[..8] == Synthesise(v0, r, ws[..i]).memory
      invariant sr[start..start + i] == Synthesise(v0, r, ws[..i]).out
      invariant sr[start + i..] == old(sr[start + i..])
      invariant sr[..start] == old(sr[..start])
    {
      assert wt[start + i] == ws[i];
      assert ws[..i + 1][..i] == ws[..i];
      sr[start + i] := SynthesisSample(v, rrp, wt[start + i]);
      assert sr[start + i + 1..] == old(sr[start + i..])[1..];
    }
    assert ws[..k] == ws;
  }

  /** The coefficients of segment `n`, computed in the working array `larp`. */
  method SegmentCoefficients(n: nat, previous: Vec8, current: Vec8, larp: array<int16>)
    requires n < 4 && larp.Length == 8
    modifies larp
    ensures larp[..] == RpVector(n, previous, current)
  {
    if n == 0 { Coefficients0To12(previous, current, larp); }
    else if n == 1 { Coefficients13To26(previous, current, larp); }
    else if n == 2 { Coefficients27To39(previous, current, larp); }
    else { Coefficients40To159(current, larp); }
    LarpToRp(larp);
  }

  ghost function AnalysisState(s: Gsm0610State): (f: Filter)
    requires s.Shaped()
    reads s, s.u
    ensures f.Valid()
  {
    Filter(s.u[..], s.LARpp, s.j)
  }

  ghost function SynthesisState(s: Gsm0610State): (f: Filter)
    requires s.Shaped()
    reads s, s.v
    ensures f.Valid()
  {
    Filter(s.v[..8], s.LARpp, s.j)
  }

  /** Segment `n` of a frame, once the segments before it are done. */
  method AnalysisSegment(n: nat, u: array<int16>, previous: Vec8, current: Vec8, larp: array<int16>,
                         amp: array<int16>, ghost u0: Vec8, ghost xs: seq<int16>)
    requires n < 4 && |xs| == 160 && u.Length == 8 && larp.Length == 8 && amp.Length == 160
    requires u != larp && u != amp && larp != amp
    requires u[..] == AnalyseFrame(u0, previous, current, xs, n).memory
    requires amp[..SegmentStart(n)] == AnalyseFrame(u0, previous, current, xs, n).out
    requires amp[SegmentStart(n)..] == xs[SegmentStart(n)..]
    modifies u, larp, amp
    ensures u[..] == AnalyseFrame(u0, previous, current, xs, n + 1).memory
    ensures amp[..SegmentStart(n + 1)] == AnalyseFrame(u0, previous, current, xs, n + 1).out
    ensures amp[SegmentStart(n + 1)..] == xs[SegmentStart(n + 1)..]
  {
    hide Analyse, Synthesise, RpVector;
    var lo, hi := SegmentStart(n), SegmentStart(n + 1);
    SegmentCoefficients(n, previous, current, larp);
    assert amp[lo..hi] == amp[lo..][..hi - lo] == xs[lo..hi];
    assert amp[hi..] == amp[lo..][hi - lo..] == xs[hi..];
    ShortTermAnalysisFiltering(u, larp, hi - lo, amp, lo);
    assert amp[..hi] == amp[..lo] + amp[lo..hi];
  }

  method SynthesisSegment(n: nat, v: array<int16>, previous: Vec8, current: Vec8, larp: array<int16>,
                          wt: array<int16>, amp: array<int16>, ghost v0: Vec8)
    requires n < 4 && v.Length == 9 && larp.Length == 8 && wt.Length == 160 && amp.Length == 160
    requires v != larp && v != amp && larp != amp && wt != v && wt != larp && wt != amp
    requires v[..8] == SynthesiseFrame(v0, previous, current, wt[..], n).memory
    requires amp[..SegmentStart(n)] == SynthesiseFrame(v0, previous, current, wt[..], n).out
    modifies v, larp, amp
    ensures v[..8] == SynthesiseFrame(v0, previous, current, wt[..], n + 1).memory
    ensures amp[..SegmentStart(n + 1)] == SynthesiseFrame(v0, previous, current, wt[..], n + 1).out
  {
    hide Analyse, Synthesise, RpVector;
    ghost var ws := wt[..];
    var lo, hi := SegmentStart(n), SegmentStart(n + 1);
    SegmentCoefficients(n, previous, current, larp);
    assert wt[..] == ws && wt[lo..hi] == ws[lo..hi];
    ShortTermSynthesisFiltering(v, larp, hi - lo, wt, amp, lo);
    assert wt[..] == ws;
    assert amp[..hi] == amp[..lo] + amp[lo..hi];
  }

  /** gsm0610_short_term_analysis_filter: a whole frame, in place. */
  method ShortTermAnalysisFilter(s: Gsm0610State, larc: Vec8, amp: array<int16>)
    requires s.Shaped() && amp.Length == 160 && amp !in s.Repr
    modifies s`LARpp, s`j, s.u, amp
    ensures s.Shaped()
    ensures var step := AnalysisStep(old(AnalysisState(s)), larc, old(amp[..]));
            AnalysisState(s) == step.state && amp[..] == step.out
  {
    hide AnalyseFrame, DecodeLogAreaRatios;
    ghost var u0: Vec8 := s.u[..];
    ghost var xs := amp[..];
    FirstSegmentFromHere(u0, s.LARpp[1 - s.j], DecodeLogAreaRatios(larc), xs);
    var current := DecodeLogAreaRatios(larc);
    var previous := s.LARpp[1 - s.j];
    s.LARpp := s.LARpp[s.j := current];
    s.j := 1 - s.j;
    var larp := new int16[8];
    AnalysisSegment(0, s.u, previous, current, larp, amp, u0, xs);
    AnalysisSegment(1, s.u, previous, current, larp, amp, u0, xs);
    AnalysisSegment(2, s.u, previous, current, larp, amp, u0, xs);
    AnalysisSegment(3, s.u, previous, current, larp, amp, u0, xs);
    assert amp[..160] == amp[..];
  }

  lemma FirstSegmentFromHere(memory: Vec8, previous: Vec8, current: Vec8, xs: seq<int16>)
    requires |xs| == 160
    ensures AnalyseFrame(memory, previous, current, xs, 0) == Run(memory, [])
    ensures SynthesiseFrame(memory, previous, current, xs, 0) == Run(memory, [])
  {
  }

  /** gsm0610_short_term_synthesis_filter: a whole frame, from `wt` to `amp`. */
  method ShortTermSynthesisFilter(s: Gsm0610State, larcr: Vec8, wt: array<int16>, amp: array<int16>)
    requires s.Shaped() && amp.Length == 160 && wt.Length == 160
    requires amp !in s.Repr && wt !in s.Repr && amp != wt
    modifies s`LARpp, s`j, s.v, amp
    ensures s.Shaped()
    ensures var step := SynthesisStep(old(SynthesisState(s)), larcr, wt[..]);
            SynthesisState(s) == step.state && amp[..] == step.out
  {
    hide SynthesiseFrame, DecodeLogAreaRatios;
    ghost var v0: Vec8 := s.v[..8];
    ghost var ws := wt[..];
    FirstSegmentFromHere(v0, s.LARpp[1 - s.j], DecodeLogAreaRatios(larcr), ws);
    var current := DecodeLogAreaRatios(larcr);
    var previous := s.LARpp[1 - s.j];
    s.LARpp := s.LARpp[s.j := current];
    s.j := 1 - s.j;
    var larp := new int16[8];
    SynthesisSegment(0, s.v, previous, current, larp, wt, amp, v0);
    assert wt[..] == ws;
    SynthesisSegment(1, s.v, previous, current, larp, wt, amp, v0);
    assert wt[..] == ws;
    SynthesisSegment(2, s.v, previous, current, larp, wt, amp, v0);
    assert wt[..] == ws;
    SynthesisSegment(3, s.v, previous, current, larp, wt, amp, v0);
    assert wt[..] == ws;
    assert amp[..160] == amp[..];
  }
}
