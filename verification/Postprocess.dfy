/** De-emphasis and output scaling (postprocessing in gsm0610_decode.c, section 4.3.5
    of GSM 06.10), and what becomes of the coder's pre-emphasis. */
module Postprocess {
  import opened Saturated
  import opened Preprocess

  /** Clears the three low bits: `(int16_t) (x & 0xFFF8)`. */
  function Truncated(x: int16): int16 {
    Wrap16(x % 0x1_0000 / 8 * 8)
  }

  lemma TruncatedIsMultipleBelow(x: int16)
    ensures Truncated(x) % 8 == 0 && Truncated(x) <= x < Truncated(x) + 8
  {
  }

  datatype Emphasis = Emphasis(msr: int16, out: seq<int16>)

  function DeEmphasised(msr: int16, x: int16): int16 {
    Add16(x, MultR(msr, 28180))
  }

  function Postprocessed(msr: int16, xs: seq<int16>): (r: Emphasis)
    ensures |r.out| == |xs|
  {
    if xs == [] then Emphasis(msr, [])
    else
      var before := Postprocessed(msr, xs[..|xs| - 1]);
      var next := DeEmphasised(before.msr, xs[|xs| - 1]);
      Emphasis(next, before.out + [Truncated(Add16(next, next))])
  }

  // ---- de-emphasis against pre-emphasis ----

  /** The coder's pre-emphasis of the sample `x` behind the sample `s`. */
  function Emphasised(s: int16, x: int16): int16 {
    Add16(x, MultR(s, -28180))
  }

  /** What the saturation of the pre-emphasis takes away or adds. */
  function Clip(s: int16, x: int16): int {
    Emphasised(s, x) - (x + MultR(s, -28180))
  }

  /** The error of a restored sample, given the sample `s` before it, of which the
      decoder holds `s + e`.  The two roundings add up to one half way between two
      values, and with a unit of error already there, unless it is rounded off. */
  function NextError(s: int16, e: nat): (n: nat)
    requires e <= 1
    ensures n <= 1
  {
    if e == 0 then if s % 8192 == 4096 then 1 else 0
    else if 0x4000 < s * 28180 % 0x8000 < 20972 then 0 else 1
  }

  /** One sample, without any condition: the decoder restores the coder's sample with
      that error and with whatever the pre-emphasis clipped. */
  lemma RestoredSample(s: int16, e: nat, msr: int16, x: int16)
    requires e <= 1 && msr == s + e
    ensures DeEmphasised(msr, Emphasised(s, x)) == Saturate(x + NextError(s, e) + Clip(s, x))
  {
    OppositeRounding(s, e);
    hide MultR, NextError;
  }

  lemma OppositeRounding(s: int16, e: nat)
    requires e <= 1 && s + e <= 0x7FFF
    ensures MultR(s + e, 28180) + MultR(s, -28180) == NextError(s, e)
  {
    ProductIsTimes(s + e, 28180);
    ProductIsTimes(s, -28180);
    ProductIsTimes(28180, s + e);
    ProductIsTimes(-28180, s);
    if e == 0 { HalfWay(s); } else { RoundedWithUnit(s * 28180); }
  }

  lemma RoundedWithUnit(p: int)
    ensures (p + 28180 + 0x4000) / 0x8000 + (-p + 0x4000) / 0x8000 == (if 0x4000 < p % 0x8000 < 20972 then 0 else 1)
  {
    var q, r := p / 0x8000, p % 0x8000;
    if r <= 0x4000 {
      assert (p + 28180 + 0x4000) / 0x8000 == q + 1 && (-p + 0x4000) / 0x8000 == -q;
    } else if r < 20972 {
      assert (p + 28180 + 0x4000) / 0x8000 == q + 1 && (-p + 0x4000) / 0x8000 == -q - 1;
    } else {
      assert (p + 28180 + 0x4000) / 0x8000 == q + 2 && (-p + 0x4000) / 0x8000 == -q - 1;
    }
  }

  /** Rounding two opposite values gives opposite results, except half way. */
  lemma HalfWay(m: int16)
    ensures (m * 28180 + 0x4000) / 0x8000 + (m * -28180 + 0x4000) / 0x8000 == (if m % 8192 == 4096 then 1 else 0)
  {
    var p := m * 28180;
    assert m * -28180 == -p;
    OddMultiple(m, p / 0x8000);
    RoundedOpposites(p);
  }

  lemma RoundedOpposites(p: int)
    ensures (p + 0x4000) / 0x8000 + (-p + 0x4000) / 0x8000 == (if p % 0x8000 == 0x4000 then 1 else 0)
  {
    var q, r := p / 0x8000, p % 0x8000;
    if r < 0x4000 {
      assert (p + 0x4000) / 0x8000 == q && (-p + 0x4000) / 0x8000 == -q;
    } else if r == 0x4000 {
      assert (p + 0x4000) / 0x8000 == q + 1 && (-p + 0x4000) / 0x8000 == -q;
    } else {
      assert (p + 0x4000) / 0x8000 == q + 1 && (-p + 0x4000) / 0x8000 == -q - 1;
    }
  }

  /** 28180 is four times an odd number, whose inverse modulo 8192 is 1357. */
  lemma OddMultiple(m: int, q: int)
    requires q == m * 28180 / 0x8000
    ensures m * 28180 % 0x8000 == 0x4000 <==> m % 8192 == 4096
  {
    if m % 8192 == 4096 { HalfOf(m * 28180, 7045 * (m / 8192) + 3522); }
    if m * 28180 % 0x8000 == 0x4000 { QuarterOf(m, 1357 * q + 678 - 1167 * m); }
  }

  lemma HalfOf(p: int, k: int)
    requires p == 0x8000 * k + 0x4000
    ensures p % 0x8000 == 0x4000
  {
  }

  lemma QuarterOf(m: int, k: int)
    requires m == 8192 * k + 4096
    ensures m % 8192 == 4096
  {
  }

  /** The restored sample is the coder's or one more exactly when clipping does not add
      to the rounding: when nothing clips, in particular.  (In a run of the coder nothing
      does, as `ReachedNeverClips` shows below.) */
  lemma RestoredIffClipFits(s: int16, e: nat, msr: int16, x: int16)
    requires e <= 1 && msr == s + e
    ensures x <= DeEmphasised(msr, Emphasised(s, x)) <= x + 1 <==> 0 <= NextError(s, e) + Clip(s, x) <= 1
    ensures -0x8000 <= x + MultR(s, -28180) <= 0x7FFF ==> Clip(s, x) == 0
  {
    RestoredSample(s, e, msr, x);
    RoundMulBounds(-28180, s);
    assert MultR(s, -28180) == RoundMul(s, -28180);
    hide MultR, NextError, DeEmphasised, RoundMul;
  }

  // ---- runs ----

  /** The samples before pre-emphasis are the values that `mp` takes.  The error of the
      last restored one, when the decoder's memory starts with the error `e`. */
  function ErrorAfter(m: Memory, e: nat, xs: seq<int16>): (n: nat)
    requires e <= 1
    ensures n <= 1
  {
    if xs == [] then e
    else NextError(Run(m, xs[..|xs| - 1]).memory.mp, ErrorAfter(m, e, xs[..|xs| - 1]))
  }

  /** No run of the coder clips, so the term for clipping does not occur in one; and no
      sample is so large that a unit of error would have no room. */
  lemma ReachedNeverClips(m: Memory, amp: int16)
    requires Reached(m)
    ensures Clip(m.mp, Next(m, amp).mp) == 0 && Next(m, amp).mp < 0x7FFF
  {
    PreEmphasisFits(m, amp);
    hide Next, MultR, Add16;
    TopOfRange(Next(m, amp));
  }

  lemma TopOfRange(m: Memory)
    requires Reached(m)
    ensures m.mp < 0x7FFF
  {
  }

  /** Over every run of the coder's preprocessing, de-emphasis of its output restores the
      last sample, and so every sample, with exactly that error: it is the coder's sample
      or one more. */
  lemma {:induction false} DeEmphasisRestoresRuns(m: Memory, e: nat, msr: int16, xs: seq<int16>)
    requires Reached(m) && e <= 1 && msr == m.mp + e
    ensures Postprocessed(msr, Run(m, xs).out).msr == Run(m, xs).memory.mp + ErrorAfter(m, e, xs)
    ensures Run(m, xs).memory.mp <= Postprocessed(msr, Run(m, xs).out).msr <= Run(m, xs).memory.mp + 1
  {
    hide NextError, DeEmphasised, Clip, Emphasised, Run, Postprocessed, Reached;
    if xs == [] {
      NothingProcessed(m, msr);
    } else {
      var before, x := xs[..|xs| - 1], xs[|xs| - 1];
      DeEmphasisRestoresRuns(m, e, msr, before);
      LastSample(m, msr, xs);
      RunReaches(m, before);
      ReachedNeverClips(Run(m, before).memory, x);
      LastStep(m, xs);
      RestoredSample(Run(m, before).memory.mp, ErrorAfter(m, e, before), Postprocessed(msr, Run(m, before).out).msr,
                     Run(m, xs).memory.mp);
    }
  }

  lemma LastStep(m: Memory, xs: seq<int16>)
    requires xs != []
    ensures Run(m, xs).memory == Next(Run(m, xs[..|xs| - 1]).memory, xs[|xs| - 1])
  {
    hide Next, Output;
  }

  /** From reset at both ends, for every stream. */
  lemma DeEmphasisRestoresStreams(xs: seq<int16>)
    ensures Postprocessed(0, Run(RESET, xs).out).msr == Run(RESET, xs).memory.mp + ErrorAfter(RESET, 0, xs)
    ensures Run(RESET, xs).memory.mp <= Postprocessed(0, Run(RESET, xs).out).msr <= Run(RESET, xs).memory.mp + 1
  {
    hide Run, Postprocessed, Reached, ErrorAfter;
    ResetIsReached();
    DeEmphasisRestoresRuns(RESET, 0, 0, xs);
  }

  lemma NothingProcessed(m: Memory, msr: int16)
    ensures Run(m, []) == Stretch(m, []) && Postprocessed(msr, []) == Emphasis(msr, [])
  {
  }

  /** The last sample of a run through both ends. */
  lemma LastSample(m: Memory, msr: int16, xs: seq<int16>)
    requires xs != []
    ensures var before := xs[..|xs| - 1];
            Postprocessed(msr, Run(m, xs).out).msr
            == DeEmphasised(Postprocessed(msr, Run(m, before).out).msr,
                            Emphasised(Run(m, before).memory.mp, Run(m, xs).memory.mp))
  {
    hide DeEmphasised, Next, Truncated;
    var before := xs[..|xs| - 1];
    var out := Run(m, xs).out;
    assert out[..|out| - 1] == Run(m, before).out;
  }

  // ---- a stream with an error that outlasts its cause ----

  /** The step of the coder on numbers. */
  lemma StepOnNumbers(m: Memory, amp: int16, z2: int16, dec: int)
    requires Reached(m) && z2 == amp / 8 * 4
    requires 0x8000 * dec <= m.L_z2 * 32735 + 0x4000 < 0x8000 * dec + 0x8000
    ensures var L := dec + (z2 - m.z1) * 0x8000;
            Next(m, amp).z1 == z2 && Next(m, amp).L_z2 == L && Next(m, amp).mp == (L + 16384) / 0x8000
    ensures Reached(Next(m, amp))
  {
    NothingSaturates(m, amp);
    PreEmphasisFits(m, amp);
    assert Decayed(m.L_z2) == dec && Downscaled(amp) == z2;
    hide Decayed, Downscaled, Add32, Output, Difference;
  }

  lemma ThreeSamples()
    ensures Run(RESET, [8192]).memory.mp == 4096
    ensures Run(RESET, [8192, 208]).memory.mp == 100
    ensures Run(RESET, [8192, 208, 8]).memory.mp == 0
  {
    ResetIsReached();
    hide Next, Reached;
    StepOnNumbers(RESET, 8192, 4096, 0);
    assert [8192][..0] == [] && [8192, 208][..1] == [8192] && [8192, 208, 8][..2] == [8192, 208];
    LastStep(RESET, [8192]);
    var m1 := Run(RESET, [8192]).memory;
    assert Run(RESET, []).memory == RESET;
    hide Run;
    assert m1.L_z2 == 4096 * 0x8000;
    StepOnNumbers(m1, 208, 104, 134082560);
    LastStep(RESET, [8192, 208]);
    var m2 := Run(RESET, [8192, 208]).memory;
    assert m2.L_z2 == 3272704;
    StepOnNumbers(m2, 8, 4, 3269408);
  }

  /** An error can outlast its cause.  Behind 4096 the decoder restores 100 as 101 and then
      0 as 1, although 100 by itself would cause no error. */
  lemma ErrorsPersist()
    ensures NextError(100, 0) == 0
    ensures Postprocessed(0, Run(RESET, [8192]).out).msr == 4096 == Run(RESET, [8192]).memory.mp
    ensures Postprocessed(0, Run(RESET, [8192, 208]).out).msr == 101 == Run(RESET, [8192, 208]).memory.mp + 1
    ensures Postprocessed(0, Run(RESET, [8192, 208, 8]).out).msr == 1 == Run(RESET, [8192, 208, 8]).memory.mp + 1
  {
    hide *;
    ThreeSamples();
    ThreeErrors();
    DeEmphasisRestoresStreams([8192]);
    DeEmphasisRestoresStreams([8192, 208]);
    DeEmphasisRestoresStreams([8192, 208, 8]);
  }

  lemma ThreeErrors()
    ensures NextError(100, 0) == 0
    ensures ErrorAfter(RESET, 0, [8192]) == 0
    ensures ErrorAfter(RESET, 0, [8192, 208]) == 1
    ensures ErrorAfter(RESET, 0, [8192, 208, 8]) == 1
  {
    ThreeSamples();
    NothingProcessed(RESET, 0);
    hide Run;
    OneMoreError([], 8192, 0, 0);
    OneMoreError([8192], 208, 4096, 0);
    OneMoreError([8192, 208], 8, 100, 1);
    assert [] + [8192] == [8192] && [8192] + [208] == [8192, 208] && [8192, 208] + [8] == [8192, 208, 8];
  }

  lemma OneMoreError(xs: seq<int16>, x: int16, s: int16, e: nat)
    requires e <= 1 && Run(RESET, xs).memory.mp == s && ErrorAfter(RESET, 0, xs) == e
    ensures ErrorAfter(RESET, 0, xs + [x]) == NextError(s, e)
  {
    hide NextError, Run;
    assert (xs + [x])[..|xs|] == xs;
  }
}
