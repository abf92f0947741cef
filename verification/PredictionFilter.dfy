/** The prediction error filter that a sequence of reflection coefficients stands for,
    over the reals: the reference against which the LPC analysis and the lattice filter
    of GSM 06.10 are measured. */
module PredictionFilter {
  import opened Saturated

  /** Multiplication, under a name that proofs can hide. */
  function Times(x: real, y: real): real {
    x * y
  }

  /** The filter `a` applied to the signal `f` at time `i`: the sum of a[j]*f(i - j). */
  function Sum(a: seq<real>, f: int -> real, i: int): real {
    if a == [] then 0.0 else Sum(a[..|a| - 1], f, i) + Times(a[|a| - 1], f(i - (|a| - 1)))
  }

  /** Entry `j`, and zero outside. */
  function At(a: seq<real>, j: int): real {
    if 0 <= j < |a| then a[j] else 0.0
  }

  /** The step-up recursion: from order n - 1 to order n with the coefficient `rho`. */
  function StepUp(a: seq<real>, rho: real): (r: seq<real>)
    ensures |r| == |a| + 1
  {
    seq(|a| + 1, j requires 0 <= j <= |a| => At(a, j) + Times(rho, At(a, |a| - j)))
  }

  /** Further coefficients on top of a filter.  They are 15-bit fractions. */
  function StepUps(a: seq<real>, rs: seq<int16>): (r: seq<real>)
    ensures |r| == |a| + |rs|
    decreases |rs|
  {
    if rs == [] then a else StepUps(StepUp(a, Rho(rs[0])), rs[1..])
  }

  function Rho(r: int16): real {
    r as real / 32768.0
  }

  /** The filter of a sequence of coefficients. */
  function FilterOf(rs: seq<int16>): (r: seq<real>)
    ensures |r| == |rs| + 1
  {
    StepUps([1.0], rs)
  }

  function Reversed(a: seq<real>): (r: seq<real>)
    ensures |r| == |a|
    ensures forall j :: 0 <= j < |a| ==> r[j] == a[|a| - 1 - j]
  {
    seq(|a|, j requires 0 <= j < |a| => a[|a| - 1 - j])
  }

  // ---- sums of combined filters ----

  function Combined(a: seq<real>, b: seq<real>, rho: real): (r: seq<real>)
    requires |a| == |b|
    ensures |r| == |a| && forall j :: 0 <= j < |a| ==> r[j] == a[j] + Times(rho, b[j])
  {
    seq(|a|, j requires 0 <= j < |a| => a[j] + Times(rho, b[j]))
  }

  lemma {:induction false} SumIsLinear(a: seq<real>, b: seq<real>, rho: real, f: int -> real, i: int)
    requires |a| == |b|
    ensures Sum(Combined(a, b, rho), f, i) == Sum(a, f, i) + Times(rho, Sum(b, f, i))
  {
    hide Times;
    if a != [] {
      var n := |a| - 1;
      var c := Combined(a, b, rho);
      SumIsLinear(a[..n], b[..n], rho, f, i);
      assert c[..n] == Combined(a[..n], b[..n], rho);
      Distribute(a[n], b[n], rho, f(i - n), Sum(b[..n], f, i));
    } else {
      NothingTimes(rho);
    }
  }

  lemma Distribute(x: real, y: real, rho: real, z: real, s: real)
    ensures Times(x + Times(rho, y), z) == Times(x, z) + Times(rho, Times(y, z))
    ensures Times(rho, s + Times(y, z)) == Times(rho, s) + Times(rho, Times(y, z))
  {
    assert (x + rho * y) * z == x * z + rho * (y * z);
  }

  lemma NothingTimes(x: real)
    ensures Times(x, 0.0) == 0.0 == Times(0.0, x)
  {
  }

  lemma {:induction false} SumOfDelayed(x: real, a: seq<real>, f: int -> real, i: int)
    ensures Sum([x] + a, f, i) == Times(x, f(i)) + Sum(a, f, i - 1)
  {
    hide Times;
    var b := [x] + a;
    if a == [] {
      assert b[..0] == [] && b[0] == x;
    } else {
      var n := |a| - 1;
      SumOfDelayed(x, a[..n], f, i);
      assert b[..|b| - 1] == [x] + a[..n];
    }
  }

  lemma SumOfPadded(a: seq<real>, f: int -> real, i: int)
    ensures Sum(a + [0.0], f, i) == Sum(a, f, i)
  {
    hide Times;
    assert (a + [0.0])[..|a|] == a;
    NothingTimes(f(i - |a|));
  }

  lemma LastComesFirst(a: seq<real>)
    requires a != []
    ensures Reversed(a) == [a[|a| - 1]] + Reversed(a[..|a| - 1])
  {
  }

  /** On an even signal, reversing the filter mirrors the time. */
  lemma {:induction false} SumOfReversed(a: seq<real>, f: int -> real, i: int)
    requires forall k :: f(k) == f(-k)
    ensures Sum(Reversed(a), f, i) == Sum(a, f, |a| - 1 - i)
  {
    hide Times, Reversed;
    if a != [] {
      var n := |a| - 1;
      LastComesFirst(a);
      SumOfDelayed(a[n], Reversed(a[..n]), f, i);
      SumOfReversed(a[..n], f, i - 1);
      assert f(i) == f(-i);
    } else {
      assert Reversed(a) == [];
    }
  }

  lemma StepUpIsCombined(a: seq<real>, rho: real)
    ensures StepUp(a, rho) == Combined(a + [0.0], [0.0] + Reversed(a), rho)
    ensures Reversed(StepUp(a, rho)) == Combined([0.0] + Reversed(a), a + [0.0], rho)
  {
    hide Times;
    var x, y, u := a + [0.0], [0.0] + Reversed(a), StepUp(a, rho);
    forall j | 0 <= j <= |a|
      ensures u[j] == x[j] + Times(rho, y[j])
    {
      Entries(a, j);
    }
    assert u == Combined(x, y, rho);
    forall j | 0 <= j <= |a|
      ensures Reversed(u)[j] == y[j] + Times(rho, x[j])
    {
      Entries(a, |a| - j);
    }
    assert Reversed(u) == Combined(y, x, rho);
  }

  lemma Entries(a: seq<real>, j: nat)
    requires j <= |a|
    ensures At(a, j) == (a + [0.0])[j] == ([0.0] + Reversed(a))[|a| - j]
    ensures At(a, |a| - j) == ([0.0] + Reversed(a))[j] == (a + [0.0])[|a| - j]
  {
  }

  /** The step-up recursion adds the reversed filter, one sample later. */
  lemma SumOfStepUp(a: seq<real>, rho: real, f: int -> real, i: int)
    ensures Sum(StepUp(a, rho), f, i) == Sum(a, f, i) + Times(rho, Sum(Reversed(a), f, i - 1))
  {
    hide Times, StepUp, Combined, Reversed;
    StepUpIsCombined(a, rho);
    SumIsLinear(a + [0.0], [0.0] + Reversed(a), rho, f, i);
    SumOfPadded(a, f, i);
    SumOfDelayed(0.0, Reversed(a), f, i);
    NothingTimes(f(i));
  }

  /** And so does its reversal, with the roles exchanged. */
  lemma SumOfReversedStepUp(a: seq<real>, rho: real, f: int -> real, i: int)
    ensures Sum(Reversed(StepUp(a, rho)), f, i) == Sum(Reversed(a), f, i - 1) + Times(rho, Sum(a, f, i))
  {
    hide Times, StepUp, Combined, Reversed;
    StepUpIsCombined(a, rho);
    SumIsLinear([0.0] + Reversed(a), a + [0.0], rho, f, i);
    SumOfPadded(a, f, i);
    SumOfDelayed(0.0, Reversed(a), f, i);
    NothingTimes(f(i));
  }

  // ---- rounding ----

  /** The error of a quantity after `n` orders of rounded arithmetic: 2^n / 2 units, less
      a half. */
  function Slack(n: nat): real {
    if n == 0 then 0.0 else 2.0 * Slack(n - 1) + 0.5
  }

  lemma SlackValues()
    ensures Slack(1) == 0.5 && Slack(2) == 1.5 && Slack(3) == 3.5 && Slack(4) == 7.5
    ensures Slack(5) == 15.5 && Slack(6) == 31.5 && Slack(7) == 63.5 && Slack(8) == 127.5
  {
    assert Slack(2) == 1.5;
    assert Slack(4) == 7.5;
    assert Slack(6) == 31.5;
  }

  /** `x` is within `e` of `y`. */
  predicate Near(x: int, y: real, e: real) {
    -e <= x as real - y <= e
  }

  lemma RoundMulIsNear(x: int, r: int16)
    ensures Near(RoundMul(x, r), Times(Rho(r), x as real), 0.5)
    ensures RoundMul(x, r) == RoundMul(r, x)
  {
    var q := RoundMul(x, r);
    ProductIsTimes(x, r);
    ProductIsTimes(r, x);
    assert 0x8000 * q <= x * r + 0x4000 < 0x8000 * q + 0x8000;
    assert Rho(r) * x as real == (x * r) as real / 32768.0;
  }

  /** One rounded step x + r*y of quantities that are near to `X` and `Y`. */
  lemma StepIsNear(x: int, y: int, r: int16, X: real, Y: real, e: real)
    requires -0x7FFF <= r && Near(x, X, e) && Near(y, Y, e)
    ensures Near(x + RoundMul(y, r), X + Times(Rho(r), Y), 2.0 * e + 0.5)
  {
    RoundMulIsNear(y, r);
    FractionShrinks(Rho(r), y as real - Y, e);
    Difference(Rho(r), y as real, Y);
    hide Times, RoundMul, Rho;
    assert (x + RoundMul(y, r)) as real == x as real + RoundMul(y, r) as real;
  }

  lemma Difference(rho: real, y: real, Y: real)
    ensures Times(rho, y) == Times(rho, Y) + Times(rho, y - Y)
  {
  }

  lemma FractionShrinks(rho: real, d: real, e: real)
    requires -1.0 <= rho <= 1.0 && -e <= d <= e
    ensures -e <= Times(rho, d) <= e
  {
    if rho >= 0.0 {
      PositiveFraction(rho, d, e);
    } else {
      PositiveFraction(-rho, d, e);
      assert -rho * d == -(rho * d);
    }
  }

  lemma PositiveFraction(rho: real, d: real, e: real)
    requires 0.0 <= rho <= 1.0 && -e <= d <= e
    ensures -e <= rho * d <= e
  {
    assert rho * (e - d) >= 0.0 && rho * (e + d) >= 0.0 && (1.0 - rho) * e >= 0.0;
  }
}
