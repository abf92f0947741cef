/** The circular-history FIR filters fir16 and fir32 of fir.h (portable branch). */
module Fir {
  import opened Saturated
  import opened VectorInt

  /** Direct convolution: coefficient 0 meets the newest sample. */
  function Convolution(coeffs: seq<int32>, newestFirst: seq<int16>, n: nat): int
    requires n <= |coeffs| && n <= |newestFirst|
  {
    if n == 0 then 0
    else Convolution(coeffs, newestFirst, n - 1) + Product(coeffs[n - 1], newestFirst[n - 1])
  }

  /** The same sum from tap `i` up, as the filter loops accumulate it. */
  function Upper(coeffs: seq<int32>, newestFirst: seq<int16>, i: nat): int
    requires i <= |coeffs| == |newestFirst|
    decreases |coeffs| - i
  {
    if i == |coeffs| then 0
    else Upper(coeffs, newestFirst, i + 1) + Product(coeffs[i], newestFirst[i])
  }

  lemma {:induction false} UpperCompletes(coeffs: seq<int32>, newestFirst: seq<int16>, i: nat)
    requires i <= |coeffs| == |newestFirst|
    ensures Convolution(coeffs, newestFirst, i) + Upper(coeffs, newestFirst, i)
         == Convolution(coeffs, newestFirst, |coeffs|)
    decreases |coeffs| - i
  {
    if i < |coeffs| { UpperCompletes(coeffs, newestFirst, i + 1); }
  }

  // ---- the whole input ----

  /** Sample `k` of the input, and silence before its start. */
  function SampleAt(xs: seq<int16>, k: int): int16
    requires k < |xs|
  {
    if k < 0 then 0 else xs[k]
  }

  /** The definition of a FIR filter: output `k` for the input `xs`, first `n` taps. */
  function Filtered(coeffs: seq<int32>, xs: seq<int16>, k: int, n: nat): int
    requires k < |xs| && n <= |coeffs|
  {
    if n == 0 then 0 else Filtered(coeffs, xs, k, n - 1) + Product(coeffs[n - 1], SampleAt(xs, k - (n - 1)))
  }

  /** What a delay line of `taps` samples holds after the input `xs`, newest first. */
  function DelayLine(xs: seq<int16>, taps: nat): (h: seq<int16>)
    requires taps > 0
    ensures |h| == taps
  {
    if xs == [] then seq(taps, _ => 0) else [xs[|xs| - 1]] + DelayLine(xs[..|xs| - 1], taps)[..taps - 1]
  }

  lemma {:induction false} DelayLineIsTheInput(xs: seq<int16>, taps: nat, i: nat)
    requires i < taps
    ensures DelayLine(xs, taps)[i] == SampleAt(xs, |xs| - 1 - i)
  {
    if xs != [] && i > 0 {
      DelayLineIsTheInput(xs[..|xs| - 1], taps, i - 1);
    }
  }

  /** Convolving the delay line is filtering the whole input. */
  lemma {:induction false} DelayLineFilters(coeffs: seq<int32>, xs: seq<int16>, n: nat)
    requires n <= |coeffs| && coeffs != []
    ensures Convolution(coeffs, DelayLine(xs, |coeffs|), n) == Filtered(coeffs, xs, |xs| - 1, n)
  {
    if n > 0 {
      DelayLineFilters(coeffs, xs, n - 1);
      DelayLineIsTheInput(xs, |coeffs|, n - 1);
    }
  }

  // ---- the filter ----

  /** fir16 uses 16-bit coefficients and fir32 32-bit ones; the code is otherwise
      the same, so one class covers both. */
  class Filter {
    const taps: nat
    const coeffs: seq<int32>
    const history: array<int16>
    var currPos: nat
    /** Everything that has been filtered. */
    ghost var fed: seq<int16>

    ghost predicate Valid()
      reads this, history
    {
      Shaped() && NewestFirst() == DelayLine(fed, taps)
    }

    predicate Shaped()
      reads this
    {
      |coeffs| == taps == history.Length && currPos < taps
    }

    /** The samples held, newest first. */
    ghost function NewestFirst(): (r: seq<int16>)
      requires Shaped()
      reads this, history
      ensures |r| == taps
    {
      Unrolled(history[..], After(currPos, taps))
    }

    constructor (coeffs: seq<int32>, taps: nat)
      requires |coeffs| == taps > 0
      ensures Valid() && fresh(history) && this.coeffs == coeffs && this.taps == taps
      ensures fed == []
    {
      this.coeffs, this.taps, this.currPos := coeffs, taps, taps - 1;
      fed := [];
      history := new int16[taps](_ => 0);
    }

    /** The two loops of the filter: first the taps whose samples lie below the
        current position, then the others. */
    method Accumulate() returns (y: int32)
      requires Shaped()
      ensures y == Wrap32(Convolution(coeffs, Unrolled(history[..], currPos), taps))
    {
      hide Wrap32, Convolution;
      ghost var now := Unrolled(history[..], currPos);
      var offset2 := currPos;
      var offset1 := taps - offset2;
      ZeroSum(coeffs, now);
      y := 0;
      var i := taps;
      while i > offset1
        invariant offset1 <= i <= taps
        invariant y == Wrap32(Upper(coeffs, now, i))
      {
        i := i - 1;
        WrapAccumulate(y, Upper(coeffs, now, i + 1), Product(coeffs[i], history[i - offset1]));
        y := Wrap32(y + Product(coeffs[i], history[i - offset1]));
      }
      while i > 0
        invariant 0 <= i <= offset1
        invariant y == Wrap32(Upper(coeffs, now, i))
      {
        i := i - 1;
        WrapAccumulate(y, Upper(coeffs, now, i + 1), Product(coeffs[i], history[i + offset2]));
        y := Wrap32(y + Product(coeffs[i], history[i + offset2]));
      }
      UpperCompletes(coeffs, now, 0);
    }

    /** One sample of the input.  The result is the filtered signal at that sample;
        where the exact sum fits 32 bits, no wrap-around shows. */
    method Step(sample: int16) returns (out: int16)
      requires Valid()
      modifies this, history
      ensures Valid() && fed == old(fed) + [sample]
      ensures var exact := Filtered(coeffs, fed, |fed| - 1, taps);
              && out == Wrap16(Wrap32(exact) / 0x8000)
              && (-0x8000_0000 <= exact <= 0x7FFF_FFFF ==> out == Wrap16(exact / 0x8000))
    {
      hide Wrap16, Convolution, Filtered;
      ghost var before := history[..];
      history[currPos] := sample;
      assert history[..] == before[currPos := sample];
      PushFront(before, currPos, sample);
      var y := Accumulate();
      ghost var now := Unrolled(history[..], currPos);
      if currPos <= 0 { currPos := taps; }
      currPos := currPos - 1;
      assert After(currPos, taps) == old(currPos);
      assert NewestFirst() == now;
      fed := fed + [sample];
      assert fed[..|fed| - 1] == old(fed);
      DelayLineFilters(coeffs, fed, taps);
      out := Wrap16(y / 0x8000);
    }
  }

  lemma ZeroSum(coeffs: seq<int32>, newestFirst: seq<int16>)
    requires |coeffs| == |newestFirst|
    ensures Upper(coeffs, newestFirst, |coeffs|) == 0 == Wrap32(0)
    ensures Convolution(coeffs, newestFirst, 0) == 0
  {
  }

  /** The next position up, with wrap. */
  function After(pos: nat, taps: nat): (r: nat)
    requires pos < taps
    ensures r < taps
  {
    if pos + 1 == taps then 0 else pos + 1
  }

  lemma PushFront(before: seq<int16>, pos: nat, sample: int16)
    requires pos < |before|
    ensures Unrolled(before[pos := sample], pos)
         == [sample] + Unrolled(before, After(pos, |before|))[..|before| - 1]
  {
  }
}
