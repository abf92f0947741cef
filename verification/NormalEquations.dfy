/** What the Schur recursion computes: while nothing saturates, its two generators are the
    correlations of the prediction error filter that its coefficients stand for, up to
    rounding, and that filter solves the normal equations of linear prediction. */
module NormalEquations {
  import opened Saturated
  import opened Autocorrelation
  import opened PredictionFilter
  import opened Reflection

  /** The autocorrelation as an even signal. */
  function Lags(R: Vec9): int -> real {
    k => LagAt(R, k)
  }

  function LagAt(R: Vec9, k: int): real {
    if -8 <= k <= 8 then R[if k < 0 then -k else k] as real else 0.0
  }

  /** Correlation of the output of the filter with the signal `i` samples earlier: the sum
      of a[j]*R(i - j). */
  function Correlation(a: seq<real>, R: Vec9, i: int): real {
    Sum(a, Lags(R), i)
  }

  lemma CorrelationOfStepUp(a: seq<real>, rho: real, R: Vec9, i: int)
    ensures Correlation(StepUp(a, rho), R, i) == Correlation(a, R, i) + Times(rho, Correlation(a, R, |a| - i))
  {
    hide Sum, StepUp, Times, Reversed;
    SumOfStepUp(a, rho, Lags(R), i);
    forall k ensures Lags(R)(k) == Lags(R)(-k) { }
    SumOfReversed(a, Lags(R), i - 1);
  }

  /** Behind order `n`, P[0] is the residual energy, P[m] the correlation at lag m + n and
      K[m] that at lag -m, each up to the rounding of `n` orders. */
  predicate Follows(st: Schur, a: seq<real>, R: Vec9, n: nat)
    requires n <= 8
  {
    && |a| == n + 1
    && Near(st.P[0], Correlation(a, R, 0), Slack(n))
    && (forall m :: 1 <= m <= 8 - n ==> Near(st.P[m], Correlation(a, R, m + n), Slack(n)))
    && (forall m :: 1 <= m <= 8 - n && m <= 7 ==> Near(st.K[m], Correlation(a, R, -m), Slack(n)))
  }

  predicate InRange16(x: int) {
    -0x8000 <= x <= 0x7FFF
  }

  /** No addition of order `n` saturates. */
  predicate Unsaturated(st: Schur, r: int16, n: nat)
    requires 1 <= n <= 7
  {
    && InRange16(st.P[0] + RoundMul(st.P[1], r))
    && (forall m :: 1 <= m <= 8 - n ==> InRange16(st.P[m + 1] + RoundMul(st.K[m], r)))
    && (forall m :: 1 <= m <= 8 - n ==> InRange16(st.K[m] + RoundMul(st.P[m + 1], r)))
  }

  lemma ExactStep(st: Schur, r: int16, n: nat, m: nat)
    requires 1 <= n <= 7 && m <= 8 - n && r != -0x8000 && Unsaturated(st, r, n)
    ensures m == 0 ==> NextSchur(st, r, n).P[0] == st.P[0] + RoundMul(st.P[1], r)
    ensures m > 0 ==> NextSchur(st, r, n).P[m] == st.P[m + 1] + RoundMul(st.K[m], r)
    ensures m > 0 ==> NextSchur(st, r, n).K[m] == st.K[m] + RoundMul(st.P[m + 1], r)
  {
    var x := if m == 0 then st.P[1] else st.P[m + 1];
    RoundMulIsNear(x, r);
    RoundMulIsNear(st.K[m], r);
    hide RoundMul;
  }

  lemma OrderFollows(st: Schur, a: seq<real>, R: Vec9, n: nat, r: int16)
    requires 1 <= n <= 7 && r != -0x8000
    requires Follows(st, a, R, n - 1) && Unsaturated(st, r, n)
    ensures Follows(NextSchur(st, r, n), StepUp(a, Rho(r)), R, n)
  {
    hide Correlation, StepUp, RoundMul, NextSchur, Unsaturated, Near, Times;
    var next, b := NextSchur(st, r, n), StepUp(a, Rho(r));
    assert Slack(n) == 2.0 * Slack(n - 1) + 0.5;
    hide Slack;
    CorrelationOfStepUp(a, Rho(r), R, 0);
    ExactStep(st, r, n, 0);
    StepIsNear(st.P[0], st.P[1], r, Correlation(a, R, 0), Correlation(a, R, n), Slack(n - 1));
    forall m | 1 <= m <= 8 - n
      ensures EntryNear(next, b, R, n, m)
    {
      EntryFollows(st, a, R, n, r, m);
    }
    hide EntryNear;
    Assembled(next, b, R, n);
  }

  predicate EntryNear(st: Schur, a: seq<real>, R: Vec9, n: nat, m: int)
    requires 1 <= m <= 8
  {
    Near(st.P[m], Correlation(a, R, m + n), Slack(n)) && Near(st.K[m], Correlation(a, R, -m), Slack(n))
  }

  lemma Assembled(st: Schur, a: seq<real>, R: Vec9, n: nat)
    requires n <= 8 && |a| == n + 1 && Near(st.P[0], Correlation(a, R, 0), Slack(n))
    requires forall m :: 1 <= m <= 8 - n ==> EntryNear(st, a, R, n, m)
    ensures Follows(st, a, R, n)
  {
    hide Correlation, Near, Slack;
    forall m | 1 <= m <= 8 - n
      ensures Near(st.P[m], Correlation(a, R, m + n), Slack(n)) && Near(st.K[m], Correlation(a, R, -m), Slack(n))
    {
      assert EntryNear(st, a, R, n, m);
    }
  }

  lemma EntryFollows(st: Schur, a: seq<real>, R: Vec9, n: nat, r: int16, m: int)
    requires 1 <= n <= 7 && r != -0x8000 && 1 <= m <= 8 - n
    requires Follows(st, a, R, n - 1) && Unsaturated(st, r, n)
    ensures EntryNear(NextSchur(st, r, n), StepUp(a, Rho(r)), R, n, m)
  {
    hide Correlation, StepUp, RoundMul, NextSchur, Unsaturated, Near, Times;
    assert Slack(n) == 2.0 * Slack(n - 1) + 0.5;
    hide Slack;
    ExactStep(st, r, n, m);
    assert (m + 1) + (n - 1) == m + n;
    CorrelationOfStepUp(a, Rho(r), R, m + n);
    StepIsNear(st.P[m + 1], st.K[m], r, Correlation(a, R, m + n), Correlation(a, R, -m), Slack(n - 1));
    CorrelationOfStepUp(a, Rho(r), R, -m);
    StepIsNear(st.K[m], st.P[m + 1], r, Correlation(a, R, -m), Correlation(a, R, m + n), Slack(n - 1));
  }

  // ---- the choice of the coefficient ----

  /** The coefficient cancels P[1] against P[0], to within one unit. */
  lemma CoefficientCancels(st: Schur)
    requires Usable(st) && st.P[1] != -0x8000
    ensures Near(st.P[1], -Times(Rho(Coefficient(st)), st.P[0] as real), 1.0)
  {
    var p: int, q: int, r: int := st.P[0], st.P[1], Coefficient(st);
    FractionIsClose(Abs16(q), p);
    var t: int := Fraction(Abs16(q), p);
    hide Fraction;
    SignedProduct(r, t, p, q);
    ScaledProduct(r, p);
    hide Times, Rho;
  }

  lemma SignedProduct(r: int, t: int, p: int, q: int)
    requires r == (if q > 0 then -t else t)
    ensures r * p == (if q > 0 then -(t * p) else t * p)
  {
  }

  lemma ScaledProduct(r: int16, p: int)
    ensures Times(Rho(r), p as real) == (r * p) as real / 32768.0
  {
  }

  lemma FractionIsClose(num: int16, denom: int16)
    requires 0 <= num <= denom
    ensures var t := Fraction(num, denom);
            0 <= num * 0x8000 - t * denom <= denom
  {
    if num > 0 {
      var x := num as int * 0x8000;
      Quotient(x, denom);
      var q := x / denom;
      if q >= 0x7FFF { LargeQuotient(q, denom, x); }
    }
  }

  lemma Quotient(x: nat, d: int)
    requires d > 0
    ensures 0 <= x - x / d * d < d
  {
  }

  lemma LargeQuotient(q: int, d: int, x: int)
    requires d > 0 && q >= 0x7FFF && q * d <= x <= 0x8000 * d
    ensures 0 <= x - 0x7FFF * d <= d
  {
    assert (q - 0x7FFF) * d >= 0;
  }

  // ---- the normal equations ----

  /** `k` orders from order `n` on neither stop the recursion early nor saturate. */
  predicate Regular(st: Schur, n: nat, k: nat)
    requires 1 <= n && n + k <= 9
    decreases k
  {
    k == 0 ||
    (Usable(st) && st.P[1] != -0x8000 &&
     (k == 1 || (Unsaturated(st, Coefficient(st), n) && Regular(NextSchur(st, Coefficient(st), n), n + 1, k - 1))))
  }

  /** The normal equations of order `n`, each to within 2^n / 2 units: the output of the
      filter is uncorrelated with the `n` samples before. */
  predicate Solves(a: seq<real>, R: Vec9, n: nat) {
    |a| == n + 1 && forall i :: 1 <= i <= n ==> -Slack(n) - 0.5 <= Correlation(a, R, i) <= Slack(n) + 0.5
  }

  /** The new coefficient settles the new equation and keeps the others. */
  lemma OrderSolves(st: Schur, a: seq<real>, R: Vec9, n: nat)
    requires 1 <= n <= 8 && Usable(st) && st.P[1] != -0x8000
    requires Follows(st, a, R, n - 1) && Solves(a, R, n - 1)
    ensures Solves(StepUp(a, Rho(Coefficient(st))), R, n)
  {
    hide Correlation, StepUp, Coefficient, Fraction, Times;
    var r := Coefficient(st);
    var b := StepUp(a, Rho(r));
    forall i | 1 <= i <= n
      ensures -Slack(n) - 0.5 <= Correlation(b, R, i) <= Slack(n) + 0.5
    {
      CorrelationOfStepUp(a, Rho(r), R, i);
      if i < n {
        FractionShrinks(Rho(r), Correlation(a, R, n - i), Slack(n - 1) + 0.5);
      } else {
        CoefficientCancels(st);
        Difference(Rho(r), Correlation(a, R, 0), st.P[0] as real);
        FractionShrinks(Rho(r), Correlation(a, R, 0) - st.P[0] as real, Slack(n - 1));
      }
    }
  }

  /** From any state that follows its filter on. */
  lemma {:induction false} RemainingOrdersSolve(st: Schur, a: seq<real>, R: Vec9, n: nat, k: nat)
    requires 1 <= n && n + k <= 9 && Regular(st, n, k)
    requires Follows(st, a, R, n - 1) && Solves(a, R, n - 1)
    ensures k > 0 ==> n <= 8 && Solves(StepUps(a, Reflect(st, n)[..k]), R, n - 1 + k)
    decreases k
  {
    hide Correlation, StepUp, Coefficient, Unsaturated, NextSchur, Follows, Solves, Usable;
    if k > 0 {
      var r := Coefficient(st);
      OrderSolves(st, a, R, n);
      var b := StepUp(a, Rho(r));
      var rs := Reflect(st, n)[..k];
      FirstOfReflect(st, n, k);
      if k == 1 {
        assert rs[1..] == [];
      } else {
        var next := NextSchur(st, r, n);
        OrderFollows(st, a, R, n, r);
        RemainingOrdersSolve(next, b, R, n + 1, k - 1);
      }
    }
  }

  lemma FirstOfReflect(st: Schur, n: nat, k: nat)
    requires 1 <= n <= 8 && 1 <= k <= 9 - n && Usable(st)
    ensures var rs := Reflect(st, n)[..k];
            rs[0] == Coefficient(st) && (k > 1 ==> rs[1..] == Reflect(NextSchur(st, rs[0], n), n + 1)[..k - 1])
  {
    hide Coefficient, NextSchur;
  }

  lemma {:induction false} StartFollows(acf: seq<int>)
    requires Dominated(acf) && acf[0] != 0
    ensures Follows(InitialSchur(acf), [1.0], InitialSchur(acf).P, 0) && Solves([1.0], InitialSchur(acf).P, 0)
  {
    hide Normalised;
    var st := InitialSchur(acf);
    forall i | -8 <= i <= 8
      ensures Correlation([1.0], st.P, i) == st.P[if i < 0 then -i else i] as real
    {
      OneTap(st.P, i);
    }
    hide Correlation;
  }

  lemma OneTap(R: Vec9, i: int)
    ensures Correlation([1.0], R, i) == LagAt(R, i)
  {
    assert [1.0][..0] == [];
    assert Sum([], Lags(R), i) == 0.0;
  }

  /** Section 4.2.5 of GSM 06.10: as long as the recursion neither stops nor saturates, its
      first `k` coefficients make the filter that solves the normal equations of order
      `k` for the normalised autocorrelation, to within 2^k / 2 units. */
  lemma CoefficientsSolveNormalEquations(acf: seq<int>, k: nat)
    requires Dominated(acf) && acf[0] != 0 && k <= 8 && Regular(InitialSchur(acf), 1, k)
    ensures Solves(FilterOf(ReflectionOf(acf)[..k]), InitialSchur(acf).P, k)
  {
    hide InitialSchur, Follows, Solves, Regular, StepUp, Reflect;
    StartFollows(acf);
    if k > 0 {
      RemainingOrdersSolve(InitialSchur(acf), [1.0], InitialSchur(acf).P, 1, k);
    }
  }
}
