/** What the lattice of the short-term analysis computes: while nothing saturates, its
    output is the signal through the prediction error filter of its reflection
    coefficients, up to rounding.  It is the filter whose coefficients the LPC analysis
    determines. */
module LatticeFilter {
  import opened Saturated
  import opened GsmState
  import opened PredictionFilter
  import opened ShortTerm

  /** The samples as a signal, with silence around them. */
  function Signal(xs: seq<int16>): int -> real {
    k => if 0 <= k < |xs| then xs[k] as real else 0.0
  }

  lemma {:induction false} StepUpsSnoc(a: seq<real>, rs: seq<int16>, r: int16)
    ensures StepUps(a, rs + [r]) == StepUp(StepUps(a, rs), Rho(r))
    decreases |rs|
  {
    hide StepUp, Rho;
    if rs == [] {
      assert ([] + [r])[1..] == [];
    } else {
      StepUpsSnoc(StepUp(a, Rho(rs[0])), rs[1..], r);
      assert (rs + [r])[1..] == rs[1..] + [r];
    }
  }

  /** The filter of the first `i` coefficients. */
  function Stage(rp: Rp8, i: nat): seq<real>
    requires i <= 8
  {
    FilterOf(rp[..i])
  }

  lemma NextStage(rp: Rp8, i: nat)
    requires 1 <= i <= 8
    ensures Stage(rp, i) == StepUp(Stage(rp, i - 1), Rho(rp[i - 1]))
  {
    StepUpsSnoc([1.0], rp[..i - 1], rp[i - 1]);
    assert rp[..i] == rp[..i - 1] + [rp[i - 1]];
  }

  lemma FirstStage(rp: Rp8, f: int -> real, n: int)
    ensures Stage(rp, 0) == [1.0] == Reversed(Stage(rp, 0)) && Sum([1.0], f, n) == f(n)
  {
    assert rp[..0] == [];
    assert [1.0][..0] == [] && Sum([], f, n) == 0.0;
  }

  /** Entry `i` of the memory is the backward error of stage `i` at time `n`. */
  predicate Remembers(u: Vec8, rp: Rp8, f: int -> real, n: int) {
    forall i :: 0 <= i < 8 ==> Near(u[i], Sum(Reversed(Stage(rp, i)), f, n), Slack(i))
  }

  /** Neither path of stage `i` saturates. */
  predicate BothUnclipped(u: Vec8, rp: Rp8, x: int16, i: nat)
    requires i < 8
  {
    Unclipped(u, rp, x, i) && -0x8000 <= u[i] + RoundMul(rp[i], Forward(u, rp, x, i)) <= 0x7FFF
  }

  predicate SampleUnclipped(u: Vec8, rp: Rp8, x: int16) {
    forall i :: 0 <= i < 8 ==> BothUnclipped(u, rp, x, i)
  }

  /** Stage by stage, both paths follow the step-up recursion. */
  lemma {:induction false} StageFollows(u: Vec8, rp: Rp8, x: int16, f: int -> real, n: int, i: nat)
    requires i <= 8 && f(n) == x as real
    requires Remembers(u, rp, f, n - 1) && SampleUnclipped(u, rp, x)
    ensures Near(Forward(u, rp, x, i), Sum(Stage(rp, i), f, n), Slack(i))
    ensures Near(Backward(u, rp, x, i), Sum(Reversed(Stage(rp, i)), f, n), Slack(i))
  {
    if i == 0 {
      FirstStage(rp, f, n);
    } else {
      StageFollows(u, rp, x, f, n, i - 1);
      var a, r := Stage(rp, i - 1), rp[i - 1];
      assert BothUnclipped(u, rp, x, i - 1);
      var v, w := Forward(u, rp, x, i - 1), u[i - 1];
      assert Forward(u, rp, x, i) == v + RoundMul(r, w) && Backward(u, rp, x, i) == w + RoundMul(r, v);
      assert Slack(i) == 2.0 * Slack(i - 1) + 0.5;
      assert Near(w, Sum(Reversed(a), f, n - 1), Slack(i - 1));
      hide Forward, Backward, Sum, Near, Stage, Reversed, RoundMul, StepUp, Slack, Remembers, SampleUnclipped;
      NextStage(rp, i);
      SumOfStepUp(a, Rho(r), f, n);
      SumOfReversedStepUp(a, Rho(r), f, n);
      RoundMulIsNear(w, r);
      RoundMulIsNear(v, r);
      StepIsNear(v, w, r, Sum(a, f, n), Sum(Reversed(a), f, n - 1), Slack(i - 1));
      StepIsNear(w, v, r, Sum(Reversed(a), f, n - 1), Sum(a, f, n), Slack(i - 1));
    }
  }

  lemma SampleFollows(u: Vec8, rp: Rp8, x: int16, f: int -> real, n: int)
    requires f(n) == x as real
    requires Remembers(u, rp, f, n - 1) && SampleUnclipped(u, rp, x)
    ensures Near(Forward(u, rp, x, 8), Sum(Stage(rp, 8), f, n), Slack(8))
    ensures Remembers(NextU(u, rp, x), rp, f, n)
  {
    StageFollows(u, rp, x, f, n, 8);
    forall i | 0 <= i < 8
      ensures Near(NextU(u, rp, x)[i], Sum(Reversed(Stage(rp, i)), f, n), Slack(i))
    {
      StageFollows(u, rp, x, f, n, i);
    }
  }

  lemma {:induction false} SumOfSilence(a: seq<real>, f: int -> real, i: int)
    requires forall k :: k <= i ==> f(k) == 0.0
    ensures Sum(a, f, i) == 0.0
  {
    if a != [] {
      SumOfSilence(a[..|a| - 1], f, i);
      NothingTimes(a[|a| - 1]);
    }
  }

  /** The empty lattice remembers silence. */
  lemma SilenceRemembers(rp: Rp8, xs: seq<int16>)
    ensures Remembers(SILENCE, rp, Signal(xs), -1)
  {
    hide Stage, Sum, Slack;
    forall i | 0 <= i < 8
      ensures Near(SILENCE[i], Sum(Reversed(Stage(rp, i)), Signal(xs), -1), Slack(i))
    {
      SumOfSilence(Reversed(Stage(rp, i)), Signal(xs), -1);
      SlackIsPositive(i);
    }
  }

  lemma {:induction false} SlackIsPositive(n: nat)
    ensures Slack(n) >= 0.0
  {
    if n > 0 { SlackIsPositive(n - 1); }
  }

  predicate RunUnclipped(rp: Rp8, xs: seq<int16>, n: nat)
    requires n <= |xs|
  {
    n == 0 || (RunUnclipped(rp, xs, n - 1) && SampleUnclipped(Analyse(SILENCE, rp, xs[..n - 1]).memory, rp, xs[n - 1]))
  }

  lemma {:induction false} RunRemembers(rp: Rp8, xs: seq<int16>, n: nat)
    requires n <= |xs| && RunUnclipped(rp, xs, n)
    ensures Remembers(Analyse(SILENCE, rp, xs[..n]).memory, rp, Signal(xs), n - 1)
    ensures n > 0 ==>
      Near(Analyse(SILENCE, rp, xs[..n]).out[n - 1], Sum(FilterOf(rp), Signal(xs), n - 1), Slack(8))
  {
    hide Remembers, SampleUnclipped, Sum, FilterOf, Near, Slack, Forward, NextU;
    if n == 0 {
      assert xs[..0] == [];
      SilenceRemembers(rp, xs);
    } else {
      RunRemembers(rp, xs, n - 1);
      var before := Analyse(SILENCE, rp, xs[..n - 1]).memory;
      SampleFollows(before, rp, xs[n - 1], Signal(xs), n - 1);
      assert xs[..n][..n - 1] == xs[..n - 1];
      assert rp[..8] == rp;
    }
  }

  /** Section 4.2.10 of GSM 06.10: from an empty lattice, while nothing saturates, every
      output sample is the prediction error of the filter of the eight coefficients, to
      within 127.5 units. */
  lemma LatticeIsItsFilter(rp: Rp8, xs: seq<int16>, n: nat)
    requires n < |xs| && RunUnclipped(rp, xs, |xs|)
    ensures -127.5 <= Analyse(SILENCE, rp, xs).out[n] as real - Sum(FilterOf(rp), Signal(xs), n) <= 127.5
  {
    hide Sum, FilterOf, SampleUnclipped;
    EarlierUnclipped(rp, xs, n + 1, |xs|);
    RunRemembers(rp, xs, n + 1);
    SlackValues();
    AnalysedSamples(SILENCE, rp, xs, n + 1);
    hide Analyse;
    assert Analyse(SILENCE, rp, xs).out[..n + 1][n] == Analyse(SILENCE, rp, xs).out[n];
  }

  lemma {:induction false} EarlierUnclipped(rp: Rp8, xs: seq<int16>, n: nat, m: nat)
    requires n <= m <= |xs| && RunUnclipped(rp, xs, m)
    ensures RunUnclipped(rp, xs, n)
    decreases m - n
  {
    hide SampleUnclipped;
    if n < m { EarlierUnclipped(rp, xs, n, m - 1); }
  }
}
