/** Reflection coefficients by the Schur recursion, and their coding as log-area
    ratios (gsm0610_lpc.c, sections 4.2.5 to 4.2.7 of GSM 06.10). */
module Reflection {
  import opened Saturated
  import opened BitOperations
  import opened GsmState
  import opened Autocorrelation

  // ---- the fractional division ----

  /** `num / denom` as a 15-bit fraction, limited to the largest one. */
  function Fraction(num: int16, denom: int16): (r: int16)
    requires 0 <= num <= denom
    ensures 0 <= r
  {
    if num == 0 then 0
    else
      var q := num as int * 0x8000 / denom;
      if q < 0x7FFF then (NonNegative(num, denom); q) else 0x7FFF
  }

  lemma NonNegative(num: int, denom: int)
    requires 0 <= num && 0 < denom
    ensures num * 0x8000 / denom >= 0
  {
  }

  /** One step of restoring division. */
  lemma DivStep(div: int, denom: int, rem: int, value: int)
    requires value == Product(div, denom) + rem
    ensures 2 * value == Product(2 * div, denom) + 2 * rem
    ensures 2 * value == Product(2 * div + 1, denom) + (2 * rem - denom)
  {
    ProductIsTimes(div, denom);
    ProductIsTimes(2 * div, denom);
    ProductIsTimes(2 * div + 1, denom);
    assert (2 * div) * denom == 2 * (div * denom);
    assert (2 * div + 1) * denom == 2 * (div * denom) + denom;
  }

  lemma DivDone(num: int, denom: int, div: int, rem: int)
    requires 0 < num <= denom && num * 0x8000 == Product(div, denom) + rem
    requires if num < denom then 0 <= rem < denom else rem == denom && div < 0x8000
    ensures num < denom ==> div == num * 0x8000 / denom && div < 0x8000
    ensures num == denom ==> div == 0x7FFF && num * 0x8000 / denom == 0x8000
  {
    ProductIsTimes(div, denom);
    if num < denom {
      QuotientIs(num * 0x8000, denom, div, rem);
    } else {
      QuotientIs(num * 0x8000, denom, 0x8000, 0);
      assert (div + 1) * denom == 0x8000 * denom;
    }
  }

  lemma QuotientIs(x: int, d: int, q: int, rem: int)
    requires d > 0 && 0 <= rem < d && x == q * d + rem
    ensures x / d == q
  {
    var t := x / d - q;
    assert t * d == rem - x % d by {
      assert (x / d - q) * d == x / d * d - q * d;
    }
    if t >= 1 {
      MulGrows(t, d);
    } else if t <= -1 {
      MulGrows(-t, d);
    }
  }

  lemma MulGrows(t: int, d: int)
    requires t >= 1 && d > 0
    ensures t * d >= d && -t * d <= -d
  {
    assert t * d == d + (t - 1) * d;
  }

  lemma ProductDoubles(a: int, b: int)
    ensures Product(a, b * 2) == 2 * Product(a, b)
  {
    assert a * (b * 2) == 2 * (a * b);
  }

  /** gsm_div. */
  method GsmDiv(num: int16, denom: int16) returns (div: int16)
    requires num >= 0 && denom >= num
    ensures div == Fraction(num, denom)
  {
    if num == 0 { return 0; }
    hide Product;
    var num32: int := num;
    var acc: int := 0;
    var k := 15;
    ghost var power := 1;
    ProductIsTimes(0, denom);
    ProductIsTimes(num, 1);
    ProductIsTimes(num, 0x8000);
    PowersOfTwo(15);
    while k > 0
      invariant 0 <= k <= 15
      invariant k == 15 ==> power == 1
      invariant Shl(power, k) == 0x8000 && 1 <= power
      invariant Product(num, power) == Product(acc, denom) + num32
      invariant if num < denom then 0 <= num32 < denom else num32 == denom
      invariant 0 <= acc < power
    {
      DivStep(acc, denom, num32, Product(num, power));
      ProductDoubles(num, power);
      k := k - 1;
      acc := acc * 2;
      num32 := num32 * 2;
      power := power * 2;
      if num32 >= denom {
        num32 := num32 - denom;
        acc := acc + 1;
      }
    }
    DivDone(num, denom, acc, num32);
    div := acc;
  }

  // ---- the Schur recursion ----

  type Vec9 = s: seq<int16> | |s| == 9 witness [0, 0, 0, 0, 0, 0, 0, 0, 0]

  /** The two generators; entries outside the active range are not used. */
  datatype Schur = Schur(P: Vec9, K: Vec9)

  predicate Usable(st: Schur) {
    st.P[0] >= Abs16(st.P[1])
  }

  function Coefficient(st: Schur): (r: int16)
    requires Usable(st)
    ensures -0x7FFF <= r
  {
    var q := Fraction(Abs16(st.P[1]), st.P[0]);
    if st.P[1] > 0 then -q else q
  }

  /** Both generators move at once; order `n` leaves `8 - n` entries active. */
  function NextP(st: Schur, r: int16, n: nat, m: nat): int16
    requires 1 <= n <= 7 && m < 9
  {
    if m == 0 then Add16(st.P[0], MultR(st.P[1], r))
    else if m <= 8 - n then Add16(st.P[m + 1], MultR(st.K[m], r))
    else st.P[m]
  }

  function NextK(st: Schur, r: int16, n: nat, m: nat): int16
    requires 1 <= n <= 7 && m < 9
  {
    if 1 <= m <= 8 - n then Add16(st.K[m], MultR(st.P[m + 1], r)) else st.K[m]
  }

  function NextSchur(st: Schur, r: int16, n: nat): Schur
    requires 1 <= n <= 7
  {
    Schur(seq(9, m requires 0 <= m < 9 => NextP(st, r, n, m)), seq(9, m requires 0 <= m < 9 => NextK(st, r, n, m)))
  }

  function Zeros(n: nat): (r: seq<int16>)
    ensures |r| == n
    ensures forall i :: 0 <= i < n ==> r[i] == 0
  {
    seq(n, _ => 0)
  }

  /** The coefficients of orders `n` to 8. */
  function Reflect(st: Schur, n: nat): (r: seq<int16>)
    requires 1 <= n <= 8
    ensures |r| == 9 - n
    ensures forall i :: 0 <= i < |r| ==> r[i] >= -0x7FFF
    decreases 8 - n
  {
    if !Usable(st) then Zeros(9 - n)
    else
      var r := Coefficient(st);
      if n == 8 then [r] else [r] + Reflect(NextSchur(st, r, n), n + 1)
  }

  /** The residual energy P[0] never becomes negative and never grows. */
  lemma ResidualEnergyShrinks(st: Schur, n: nat)
    requires 1 <= n <= 7 && Usable(st)
    ensures 0 <= NextSchur(st, Coefficient(st), n).P[0] <= st.P[0]
  {
    hide Fraction;
    var r := Coefficient(st);
    var p := st.P[1];
    RoundMulBounds(r, p);
    SignOfProduct(p, r);
    assert MultR(p, r) == RoundMul(p, r);
    assert NextSchur(st, r, n).P[0] == NextP(st, r, n, 0);
  }

  lemma SignOfProduct(p: int, r: int)
    requires (p > 0 ==> r <= 0) && (p <= 0 ==> r >= 0)
    ensures RoundMul(p, r) <= 0
  {
    ProductIsTimes(p, r);
  }

  /** Every energy from order `n` on lies between 0 and the energy it starts from. */
  ghost predicate EnergiesShrink(st: Schur, n: nat)
    requires 1 <= n <= 8
    decreases 8 - n
  {
    Usable(st) && n < 8 ==>
      var next := NextSchur(st, Coefficient(st), n);
      0 <= next.P[0] <= st.P[0] && EnergiesShrink(next, n + 1)
  }

  lemma {:induction false} EnergiesAlwaysShrink(st: Schur, n: nat)
    requires 1 <= n <= 8
    ensures EnergiesShrink(st, n)
    decreases 8 - n
  {
    hide NextSchur, Coefficient;
    if Usable(st) && n < 8 {
      ResidualEnergyShrinks(st, n);
      EnergiesAlwaysShrink(NextSchur(st, Coefficient(st), n), n + 1);
    }
  }

  // ---- normalisation of the autocorrelation ----

  /** `(int16_t) ((L_ACF[i] << temp) >> 16)`. */
  function Normalised(L: int, temp: nat): int16 {
    Wrap16(Shl(L, temp) / 0x1_0000)
  }

  /** The answer to the question in the source: the normalising shift does not
      overflow at any lag, because no lag exceeds lag zero; and the first entry
      comes out in the upper half of the positive range. */
  lemma NormalisingIsSafe(acf: seq<int>, i: nat)
    requires Dominated(acf) && acf[0] != 0 && i < 9
    ensures var temp := Gsm0610Norm(acf[0]);
            && -0x8000_0000 <= Shl(acf[i], temp) <= 0x7FFF_FFFF
            && Normalised(acf[i], temp) == Shl(acf[i], temp) / 0x1_0000
            && 0x4000 <= Normalised(acf[0], temp)
  {
    hide Gsm0610Norm, Shl;
    var temp := Gsm0610Norm(acf[0]);
    ShlIsMonotone(acf[i], acf[0], temp);
    ShlIsMonotone(-acf[0], acf[i], temp);
    ShlIsLinear(acf[0], 0, temp);
  }

  function InitialSchur(acf: seq<int>): Schur
    requires Dominated(acf) && acf[0] != 0
  {
    var temp := Gsm0610Norm(acf[0]);
    Schur(seq(9, i requires 0 <= i < 9 => Normalised(acf[i], temp)),
          seq(9, i requires 0 <= i < 9 => if 1 <= i <= 7 then Normalised(acf[i], temp) else 0))
  }

  function ReflectionOf(acf: seq<int>): (r: Vec8)
    requires Dominated(acf)
    ensures forall i :: 0 <= i < 8 ==> r[i] >= -0x7FFF
  {
    if acf[0] == 0 then Zeros(8) else Reflect(InitialSchur(acf), 1)
  }

  // ---- the procedures ----

  /** One order of the recursion.  Entry `m` is overwritten while entry `m + 1` is
      still the old one, so the ascending loop performs the simultaneous move. */
  method SchurStep(P: array<int16>, K: array<int16>, r: int16, n: nat)
    requires P.Length == 9 == K.Length && P != K && 1 <= n <= 7
    modifies P, K
    ensures Schur(P[..], K[..]) == NextSchur(old(Schur(P[..], K[..])), r, n)
  {
    hide NextSchur;
    ghost var st := Schur(P[..], K[..]);
    var temp := MultR(P[1], r);
    P[0] := Add16(P[0], temp);
    var m := 1;
    while m <= 8 - n
      invariant 1 <= m <= 9 - n
      invariant forall i :: 0 <= i < m ==> P[i] == NextP(st, r, n, i) && K[i] == NextK(st, r, n, i)
      invariant forall i :: m <= i < 9 ==> P[i] == st.P[i] && K[i] == st.K[i]
    {
      MoveEntry(P, K, r, m);
      m := m + 1;
    }
    NextEntries(st, r, n);
    assert P[..] == NextSchur(st, r, n).P && K[..] == NextSchur(st, r, n).K;
  }

  method MoveEntry(P: array<int16>, K: array<int16>, r: int16, m: nat)
    requires P.Length == 9 == K.Length && P != K && 1 <= m <= 7
    modifies P, K
    ensures P[m] == Add16(old(P[m + 1]), MultR(old(K[m]), r))
    ensures K[m] == Add16(old(K[m]), MultR(old(P[m + 1]), r))
    ensures forall i :: 0 <= i < 9 && i != m ==> P[i] == old(P[i]) && K[i] == old(K[i])
  {
    var temp := MultR(K[m], r);
    P[m] := Add16(P[m + 1], temp);
    temp := MultR(P[m + 1], r);
    K[m] := Add16(K[m], temp);
  }

  lemma NextEntries(st: Schur, r: int16, n: nat)
    requires 1 <= n <= 7
    ensures forall i :: 0 <= i < 9 ==> NextSchur(st, r, n).P[i] == NextP(st, r, n, i)
    ensures forall i :: 0 <= i < 9 ==> NextSchur(st, r, n).K[i] == NextK(st, r, n, i)
  {
  }

  /** The loop over the orders, with its early return. */
  method ReflectionLoop(P: array<int16>, K: array<int16>, r: array<int16>)
    requires P.Length == 9 == K.Length && r.Length == 8 && P != K && P != r && K != r
    modifies P, K, r
    ensures r[..] == Reflect(old(Schur(P[..], K[..])), 1)
  {
    hide NextSchur, Fraction;
    ghost var goal := Reflect(Schur(P[..], K[..]), 1);
    var n := 1;
    while n <= 8
      invariant 1 <= n <= 8
      invariant goal == r[..n - 1] + Reflect(Schur(P[..], K[..]), n)
    {
      ghost var st := Schur(P[..], K[..]);
      var temp := Abs16(P[1]);
      if P[0] < temp {
        FillZeros(r, n - 1);
        assert r[..] == r[..n - 1] + Zeros(9 - n);
        return;
      }
      var coefficient := GsmDiv(temp, P[0]);
      if P[1] > 0 { coefficient := -coefficient; }
      assert coefficient == Coefficient(st);
      ghost var done := r[..n - 1];
      r[n - 1] := coefficient;
      assert r[..n] == done + [coefficient];
      if n == 8 {
        assert r[..] == r[..8];
        return;
      }
      SchurStep(P, K, coefficient, n);
      Regroup(done, coefficient, Reflect(Schur(P[..], K[..]), n + 1));
      n := n + 1;
    }
  }

  lemma Regroup<T>(a: seq<T>, x: T, b: seq<T>)
    ensures a + ([x] + b) == (a + [x]) + b
  {
  }

  method FillZeros(r: array<int16>, from: nat)
    requires from <= r.Length
    modifies r
    ensures r[..from] == old(r[..from])
    ensures r[from..] == Zeros(r.Length - from)
  {
    for i := from to r.Length
      invariant r[..from] == old(r[..from])
      invariant forall k :: from <= k < i ==> r[k] == 0
    {
      r[i] := 0;
    }
  }

  /** reflection_coefficients. */
  method ReflectionCoefficients(L_ACF: array<int>, r: array<int16>)
    requires L_ACF.Length == 9 && r.Length == 8 && Dominated(L_ACF[..])
    modifies r
    ensures r[..] == ReflectionOf(L_ACF[..])
  {
    hide Gsm0610Norm, Reflect, Shl, Wrap16;
    ghost var acf := L_ACF[..];
    if L_ACF[0] == 0 {
      FillZeros(r, 0);
      assert r[..] == r[0..];
      return;
    }
    var P, K := new int16[9], new int16[9];
    var temp := Gsm0610Norm(L_ACF[0]);
    var i := 0;
    while i <= 8
      invariant 0 <= i <= 9
      invariant forall k :: 0 <= k < i ==> P[k] == Normalised(acf[k], temp)
      invariant forall k :: 0 <= k < i ==> K[k] == (if 1 <= k <= 7 then Normalised(acf[k], temp) else 0)
    {
      P[i] := Wrap16(Shl(L_ACF[i], temp) / 0x1_0000);
      K[i] := if 1 <= i <= 7 then P[i] else 0;
      i := i + 1;
    }
    assert Schur(P[..], K[..]) == InitialSchur(acf) by {
      assert P[..] == InitialSchur(acf).P;
      assert K[..] == InitialSchur(acf).K;
    }
    ReflectionLoop(P, K, r);
  }
}
