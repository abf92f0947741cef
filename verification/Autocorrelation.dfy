/** Autocorrelation with dynamic scaling (gsm0610_lpc.c, section 4.2.4 of GSM 06.10,
    portable branch). */
module Autocorrelation {
  import opened Saturated
  import opened BitOperations
  import opened VectorInt
  import opened Preprocess

  /** The plain sum of products at lag `k` over the first `n` samples. */
  function Corr(s: seq<int>, k: nat, n: nat): int
    requires n <= |s|
    decreases n
  {
    if n <= k then 0 else Corr(s, k, n - 1) + Product(s[n - 1], s[n - 1 - k])
  }

  // ---- no accumulation can overflow ----

  /** The two branches of the source agree: the sum over products of delayed samples is the
      dot product of the signal with itself, `k` samples apart. */
  lemma {:induction false} CorrIsDot(s: seq<int>, k: nat, n: nat)
    requires k <= n <= |s|
    ensures Corr(s, k, n) == Dot(s[k..n], s[..n - k])
    decreases n
  {
    if n > k {
      CorrIsDot(s, k, n - 1);
      assert s[k..n][..n - k - 1] == s[k..n - 1] && s[..n - k][..n - k - 1] == s[..n - 1 - k];
    } else {
      NoOverlap(s, k, n);
    }
  }

  lemma {:induction false} NoOverlap(s: seq<int>, k: nat, n: nat)
    requires n <= k && n <= |s|
    ensures Corr(s, k, n) == 0
    decreases n
  {
    if n > 0 { NoOverlap(s, k, n - 1); }
  }

  lemma SquareBound(a: int, b: int)
    ensures Product(a, a) >= 0
    ensures -(Product(a, a) + Product(b, b)) <= 2 * Product(a, b) <= Product(a, a) + Product(b, b)
  {
    ProductIsTimes(a, a);
    ProductIsTimes(b, b);
    ProductIsTimes(a, b);
    assert (a - b) * (a - b) >= 0 && (a + b) * (a + b) >= 0;
  }

  lemma {:induction false} EnergyGrows(s: seq<int>, m: nat, n: nat)
    requires m <= n <= |s|
    ensures 0 <= Corr(s, 0, m) <= Corr(s, 0, n)
    decreases n
  {
    if n > 0 {
      SquareBound(s[n - 1], 0);
      EnergyGrows(s, if m < n then m else n - 1, n - 1);
    }
  }

  /** The correlation at a lag is at most the mean of the energies of the two parts
      that it multiplies. */
  lemma {:induction false} LagBound(s: seq<int>, k: nat, n: nat)
    requires k <= n <= |s|
    ensures -(Corr(s, 0, n) + Corr(s, 0, n - k)) <= 2 * Corr(s, k, n) <= Corr(s, 0, n) + Corr(s, 0, n - k)
    decreases n
  {
    if n == k {
      EnergyGrows(s, 0, n);
    } else {
      LagBound(s, k, n - 1);
      SquareBound(s[n - 1], s[n - 1 - k]);
    }
  }

  /** No lag exceeds lag zero. */
  lemma ZeroLagDominates(s: seq<int>, k: nat, n: nat)
    requires n <= |s|
    ensures -Corr(s, 0, n) <= Corr(s, k, n) <= Corr(s, 0, n)
  {
    if k <= n {
      LagBound(s, k, n);
      EnergyGrows(s, n - k, n);
    } else {
      EnergyGrows(s, 0, n);
    }
  }

  predicate Small(s: seq<int>) {
    forall i :: 0 <= i < |s| ==> -2048 <= s[i] <= 2048
  }

  lemma {:induction false} EnergyBound(s: seq<int>, n: nat)
    requires n <= |s| && Small(s)
    ensures Corr(s, 0, n) <= n * 0x40_0000
    decreases n
  {
    if n > 0 {
      EnergyBound(s, n - 1);
      ProductBounds(s[n - 1], s[n - 1], 2048, 2048);
    }
  }

  /** Every partial sum of a scaled frame, and its double, fits 32 bits. */
  lemma SumsFit(s: seq<int>, k: nat, n: nat)
    requires n <= |s| == 160 && Small(s)
    ensures -0x2800_0000 <= Corr(s, k, n) <= 0x2800_0000
  {
    ZeroLagDominates(s, k, n);
    EnergyBound(s, n);
  }

  // ---- the scaling ----

  function MaxAbs(s: seq<int16>): (m: int16)
    ensures 0 <= m
    ensures forall i :: 0 <= i < |s| ==> Abs16(s[i]) <= m
    ensures m == 0 || exists i :: 0 <= i < |s| && Abs16(s[i]) == m
  {
    if s == [] then 0
    else
      var before := MaxAbs(s[..|s| - 1]);
      var last := Abs16(s[|s| - 1]);
      if last > before then last else before
  }

  function ScaleAmount(smax: int16): (scalauto: int)
    requires 0 <= smax
    ensures scalauto <= 4
  {
    if smax == 0 then 0 else 4 - Gsm0610Norm(smax * 0x1_0000)
  }

  function Scaled(x: int16, scalauto: int): int16 {
    if scalauto > 0 then MultR(x, Wrap16(Shr(16384, scalauto - 1))) else x
  }

  function ScaledFrame(s: seq<int16>): (r: seq<int16>)
    ensures |r| == |s|
  {
    var scalauto := ScaleAmount(MaxAbs(s));
    seq(|s|, i requires 0 <= i < |s| => Scaled(s[i], scalauto))
  }

  /** The scale amount brings every sample that the maximum allows within 2048. */
  lemma ScaledIsSmall(x: int16, smax: int16)
    requires Abs16(x) <= smax
    ensures -2048 <= Scaled(x, ScaleAmount(smax)) <= 2048
  {
    if smax == 0 {
      assert x == 0;
    } else {
      var n := Gsm0610Norm(smax * 0x1_0000);
      HeadroomOf(smax, n);
      var a := 4 - n;
      if a > 0 {
        FactorOf(a);
        ProductIsTimes(x, Shr(16384, a - 1));
      }
    }
  }

  /** The scaling divides by a power of two, rounded, and by no more than needed: at half
      that power the maximum would reach 2048. */
  lemma ScalingIsNeeded(x: int16, smax: int16)
    requires 0 <= smax && ScaleAmount(smax) > 0
    ensures var power := 16 / Headroom(smax);
            && power > 1 && -power <= 2 * (power * Scaled(x, ScaleAmount(smax)) - x) <= power
            && 2 * smax as int >= power * 2048
  {
    var n := Gsm0610Norm(smax * 0x1_0000);
    HeadroomOf(smax, n);
    HeadroomUsed(smax, n);
    hide Gsm0610Norm;
    var a := 4 - n;
    FactorOf(a);
    ProductIsTimes(x, Shr(16384, a - 1));
  }

  /** The powers of two by which the maximum could grow. */
  function Headroom(smax: int16): nat
    requires 0 <= smax
  {
    if smax < 2048 then 16 else if smax < 4096 then 8 else if smax < 8192 then 4 else if smax < 16384 then 2 else 1
  }

  lemma HeadroomUsed(smax: int16, n: nat)
    requires smax > 0 && n < 4 && 0x4000_0000 <= Shl(smax * 0x1_0000, n)
    ensures smax as int >= 2048 * (8 / (if n == 0 then 1 else if n == 1 then 2 else if n == 2 then 4 else 8))
  {
    var y := smax as int * 0x1_0000;
    assert Shl(y, 1) == Shl(2 * y, 0);
    assert Shl(y, 2) == Shl(2 * y, 1) == Shl(4 * y, 0);
    assert Shl(y, 3) == Shl(2 * y, 2) == Shl(4 * y, 1) == Shl(8 * y, 0);
  }

  lemma FactorOf(a: int)
    requires 1 <= a <= 4
    ensures Shr(16384, a - 1) == (if a == 1 then 16384 else if a == 2 then 8192 else if a == 3 then 4096 else 2048)
  {
    assert Shr(16384, 1) == Shr(8192, 0);
    assert Shr(16384, 2) == Shr(8192, 1) == Shr(4096, 0);
    assert Shr(16384, 3) == Shr(8192, 2) == Shr(4096, 1) == Shr(2048, 0);
  }

  lemma HeadroomOf(smax: int16, n: nat)
    requires smax > 0 && Shl(smax * 0x1_0000, n) <= 0x7FFF_FFFF
    ensures n >= 1 ==> smax < 16384
    ensures n >= 2 ==> smax < 8192
    ensures n >= 3 ==> smax < 4096
    ensures n >= 4 ==> smax < 2048
  {
    var y := smax * 0x1_0000;
    if n >= 1 { ShlGrows(2 * y, n - 1); }
    if n >= 2 { ShlGrows(4 * y, n - 2); }
    if n >= 3 { ShlGrows(8 * y, n - 3); }
    if n >= 4 { ShlGrows(16 * y, n - 4); }
  }

  lemma ScaledFrameIsSmall(s: seq<int16>)
    ensures Small(ScaledFrame(s))
  {
    hide Scaled, ScaleAmount, MaxAbs;
    forall i | 0 <= i < |s|
      ensures -2048 <= ScaledFrame(s)[i] <= 2048
    {
      ScaledIsSmall(s[i], MaxAbs(s));
    }
  }

  /** What the analysis hands on: nine doubled sums over the scaled frame. */
  function Acf(s: seq<int16>): (r: seq<int>)
    requires |s| == 160
    ensures |r| == 9
  {
    seq(9, k requires 0 <= k < 9 => 2 * Corr(ScaledFrame(s), k, 160))
  }

  /** A 32-bit autocorrelation, dominated by its first entry. */
  predicate Dominated(acf: seq<int>) {
    |acf| == 9 && 0 <= acf[0] <= 0x7FFF_FFFF && forall k :: 0 <= k < 9 ==> -acf[0] <= acf[k] <= acf[0]
  }

  /** For every frame, all nine results fit 32 bits and none exceeds the first. */
  lemma AcfIsDominated(s: seq<int16>)
    requires |s| == 160
    ensures Dominated(Acf(s)) && Acf(s)[0] <= 0x5000_0000
  {
    hide Corr, ScaledFrame;
    var t := ScaledFrame(s);
    ScaledFrameIsSmall(s);
    SumsFit(t, 0, 160);
    forall k | 0 <= k < 9
      ensures -Acf(s)[0] <= Acf(s)[k] <= Acf(s)[0]
    {
      ZeroLagDominates(t, k, 160);
    }
  }

  // ---- the rescaling ----

  /** `amp[k] <<= scalauto`, stored in 16 bits. */
  function Rescaled(x: int16, scalauto: int): int16 {
    if scalauto > 0 then Wrap16(Shl(x, scalauto)) else x
  }

  function RescaledFrame(s: seq<int16>): (r: seq<int16>)
    ensures |r| == |s|
  {
    var scalauto := ScaleAmount(MaxAbs(s));
    seq(|s|, i requires 0 <= i < |s| => Rescaled(ScaledFrame(s)[i], scalauto))
  }

  /** Scaling down and up again drops a bit beyond the rounding exactly for the
      largest positive samples of the loudest frames: they round up to 2048, which
      sixteen-fold does not fit 16 bits, and come back negative. */
  lemma RescalingWraps(x: int16, smax: int16)
    requires Abs16(x) <= smax
    ensures var a := ScaleAmount(smax);
            a > 0 ==> (Rescaled(Scaled(x, a), a) != Shl(Scaled(x, a), a) <==> a == 4 && x >= 32760)
    ensures ScaleAmount(smax) == 4 && x >= 32760 ==> Rescaled(Scaled(x, 4), 4) == -0x8000
  {
    var a := ScaleAmount(smax);
    if a > 0 {
      LoudestAtScale(smax);
      hide Scaled, ScaleAmount, Rescaled;
      RoundTripAtScale(x, a);
    }
  }

  lemma LoudestAtScale(smax: int16)
    requires smax > 0
    ensures var a := ScaleAmount(smax);
            (a <= 3 ==> smax < 16384) && (a <= 2 ==> smax < 8192) && (a <= 1 ==> smax < 4096)
  {
    HeadroomOf(smax, Gsm0610Norm(smax * 0x1_0000));
  }

  /** At a fixed scale, for samples as loud as it allows. */
  lemma RoundTripAtScale(x: int16, a: int)
    requires 1 <= a <= 4
    requires (a <= 3 ==> Abs16(x) < 16384) && (a <= 2 ==> Abs16(x) < 8192) && (a <= 1 ==> Abs16(x) < 4096)
    ensures Rescaled(Scaled(x, a), a) != Shl(Scaled(x, a), a) <==> a == 4 && x >= 32760
    ensures a == 4 && x >= 32760 ==> Rescaled(Scaled(x, 4), 4) == -0x8000
  {
    hide Scaled, Shl;
    ScaledValue(x, a);
    SmallShifts(Scaled(x, a));
    if a == 4 { SixteenFold(x); } else { SmallMultiple(x, a, Scaled(x, a)); }
  }

  lemma SixteenFold(x: int16)
    ensures var y := (x + 8) / 16;
            (Wrap16(16 * y) != 16 * y <==> x >= 32760) && (x >= 32760 ==> Wrap16(16 * y) == -0x8000)
  {
  }

  lemma SmallMultiple(x: int16, a: int, y: int)
    requires 1 <= a <= 3 && Abs16(x) < (if a == 3 then 16384 else if a == 2 then 8192 else 4096)
    requires y == (x + (if a == 1 then 1 else if a == 2 then 2 else 4)) / (if a == 1 then 2 else if a == 2 then 4 else 8)
    ensures var z := (if a == 1 then 2 else if a == 2 then 4 else 8) * y;
            Wrap16(z) == z
  {
    if a == 1 {
    } else if a == 2 {
    } else {
    }
  }

  /** A frame whose last sample comes back from the rescaling with the wrong sign. */
  predicate LosesItsLastSample(s: seq<int16>) {
    && |s| == 160 && s[159] == 32764 && ScaleAmount(MaxAbs(s)) == 4
    && Shl(ScaledFrame(s)[159], 4) == 0x8000 && RescaledFrame(s)[159] == -0x8000
  }

  /** Such frames do reach the analysis: after whole frames at the lowest level, a
      frame that jumps to the highest one at its end. */
  lemma SomeStreamIsRescaledWrongly()
    ensures exists xs ::
              |xs| % 160 == 0 && LosesItsLastSample(Run(Run(RESET, xs).memory, JumpFrame(159)).out)
  {
    hide Run, ScaledFrame, RescaledFrame, LosesItsLastSample;
    var xs := SettlesAtTheLowerEnd();
    var s := Run(Run(RESET, xs).memory, JumpFrame(159)).out;
    JumpIsLoud(Run(RESET, xs).memory, 159);
    LoudFrame(s);
  }

  lemma LoudFrame(s: seq<int16>)
    requires |s| == 160 && s[159] == 32764
    ensures LosesItsLastSample(s)
  {
    var smax := MaxAbs(s);
    assert Abs16(s[159]) <= smax;
    LoudestAtScale(smax);
    ScaledValue(32764, 4);
    SmallShifts(2048);
    hide Scaled, ScaleAmount, MaxAbs, Shl;
    assert ScaleAmount(smax) == 4;
    assert ScaledFrame(s)[159] == Scaled(32764, 4) == 2048;
  }

  lemma ScaledValue(x: int16, a: int)
    requires 1 <= a <= 4
    ensures Scaled(x, a) == (x + (if a == 1 then 1 else if a == 2 then 2 else if a == 3 then 4 else 8))
                            / (if a == 1 then 2 else if a == 2 then 4 else if a == 3 then 8 else 16)
  {
    FactorOf(a);
    ProductIsTimes(x, Shr(16384, a - 1));
  }

  lemma SmallShifts(x: int)
    ensures Shl(x, 1) == 2 * x && Shl(x, 2) == 4 * x && Shl(x, 3) == 8 * x && Shl(x, 4) == 16 * x
  {
    ShlTwice(x, 1);
    ShlTwice(x, 2);
    ShlTwice(x, 3);
    ShlTwice(x, 4);
  }

  // ---- the procedure ----

  /** Search for the maximum. */
  method MaximumMagnitude(amp: array<int16>) returns (smax: int16)
    ensures smax == MaxAbs(amp[..])
  {
    smax := 0;
    for k := 0 to amp.Length
      invariant smax == MaxAbs(amp[..k])
    {
      assert amp[..k + 1][..k] == amp[..k];
      var temp := Abs16(amp[k]);
      if temp > smax { smax := temp; }
    }
    assert amp[..amp.Length] == amp[..];
  }

  method ScaleDown(amp: array<int16>, scalauto: int)
    requires scalauto > 0
    modifies amp
    ensures forall i :: 0 <= i < amp.Length ==> amp[i] == Scaled(old(amp[i]), scalauto)
  {
    for k := 0 to amp.Length
      invariant forall i :: 0 <= i < k ==> amp[i] == Scaled(old(amp[i]), scalauto)
      invariant forall i :: k <= i < amp.Length ==> amp[i] == old(amp[i])
    {
      amp[k] := MultR(amp[k], Wrap16(Shr(16384, scalauto - 1)));
    }
  }

  method ScaleUp(amp: array<int16>, scalauto: int)
    requires scalauto > 0
    modifies amp
    ensures forall i :: 0 <= i < amp.Length ==> amp[i] == Rescaled(old(amp[i]), scalauto)
  {
    for k := 0 to amp.Length
      invariant forall i :: 0 <= i < k ==> amp[i] == Rescaled(old(amp[i]), scalauto)
      invariant forall i :: k <= i < amp.Length ==> amp[i] == old(amp[i])
    {
      amp[k] := Wrap16(Shl(amp[k], scalauto));
    }
  }

  /** The first samples of the frame start one accumulator each: sample `i` meets
      the `i + 1` samples up to itself. */
  method Prologue(sp: array<int16>, L_ACF: array<int>)
    requires sp.Length == 160 && L_ACF.Length == 9
    modifies L_ACF
    ensures forall k :: 0 <= k < 9 ==> L_ACF[k] == Corr(sp[..], k, 9)
  {
    hide Product;
    ghost var s := sp[..];
    var sl := sp[0];
    var a0 := Product(sl, sp[0]);
    sl := sp[1];
    a0 := a0 + Product(sl, sp[1]);
    var a1 := Product(sl, sp[0]);
    assert a0 == Corr(s, 0, 2) && a1 == Corr(s, 1, 2);
    sl := sp[2];
    a0 := a0 + Product(sl, sp[2]);
    a1 := a1 + Product(sl, sp[1]);
    var a2 := Product(sl, sp[0]);
    assert a0 == Corr(s, 0, 3) && a1 == Corr(s, 1, 3) && a2 == Corr(s, 2, 3);
    sl := sp[3];
    a0 := a0 + Product(sl, sp[3]);
    a1 := a1 + Product(sl, sp[2]);
    a2 := a2 + Product(sl, sp[1]);
    var a3 := Product(sl, sp[0]);
    assert a0 == Corr(s, 0, 4) && a1 == Corr(s, 1, 4) && a2 == Corr(s, 2, 4) && a3 == Corr(s, 3, 4);
    sl := sp[4];
    a0 := a0 + Product(sl, sp[4]);
    a1 := a1 + Product(sl, sp[3]);
    a2 := a2 + Product(sl, sp[2]);
    a3 := a3 + Product(sl, sp[1]);
    var a4 := Product(sl, sp[0]);
    assert a0 == Corr(s, 0, 5) && a1 == Corr(s, 1, 5) && a2 == Corr(s, 2, 5) && a3 == Corr(s, 3, 5) && a4 == Corr(s, 4, 5);
    sl := sp[5];
    a0 := a0 + Product(sl, sp[5]);
    a1 := a1 + Product(sl, sp[4]);
    a2 := a2 + Product(sl, sp[3]);
    a3 := a3 + Product(sl, sp[2]);
    a4 := a4 + Product(sl, sp[1]);
    var a5 := Product(sl, sp[0]);
    assert a0 == Corr(s, 0, 6) && a1 == Corr(s, 1, 6) && a2 == Corr(s, 2, 6) && a3 == Corr(s, 3, 6) &&
          a4 == Corr(s, 4, 6) && a5 == Corr(s, 5, 6);
    sl := sp[6];
    a0 := a0 + Product(sl, sp[6]);
    a1 := a1 + Product(sl, sp[5]);
    a2 := a2 + Product(sl, sp[4]);
    a3 := a3 + Product(sl, sp[3]);
    a4 := a4 + Product(sl, sp[2]);
    a5 := a5 + Product(sl, sp[1]);
    var a6 := Product(sl, sp[0]);
    assert a0 == Corr(s, 0, 7) && a1 == Corr(s, 1, 7) && a2 == Corr(s, 2, 7) && a3 == Corr(s, 3, 7) &&
          a4 == Corr(s, 4, 7) && a5 == Corr(s, 5, 7) && a6 == Corr(s, 6, 7);
    sl := sp[7];
    a0 := a0 + Product(sl, sp[7]);
    a1 := a1 + Product(sl, sp[6]);
    a2 := a2 + Product(sl, sp[5]);
    a3 := a3 + Product(sl, sp[4]);
    a4 := a4 + Product(sl, sp[3]);
    a5 := a5 + Product(sl, sp[2]);
    a6 := a6 + Product(sl, sp[1]);
    var a7 := Product(sl, sp[0]);
    assert a0 == Corr(s, 0, 8) && a1 == Corr(s, 1, 8) && a2 == Corr(s, 2, 8) && a3 == Corr(s, 3, 8) &&
          a4 == Corr(s, 4, 8) && a5 == Corr(s, 5, 8) && a6 == Corr(s, 6, 8) && a7 == Corr(s, 7, 8);
    sl := sp[8];
    a0 := a0 + Product(sl, sp[8]);
    a1 := a1 + Product(sl, sp[7]);
    a2 := a2 + Product(sl, sp[6]);
    a3 := a3 + Product(sl, sp[5]);
    a4 := a4 + Product(sl, sp[4]);
    a5 := a5 + Product(sl, sp[3]);
    a6 := a6 + Product(sl, sp[2]);
    a7 := a7 + Product(sl, sp[1]);
    var a8 := Product(sl, sp[0]);
    assert a0 == Corr(s, 0, 9) && a1 == Corr(s, 1, 9) && a2 == Corr(s, 2, 9) && a3 == Corr(s, 3, 9) &&
          a4 == Corr(s, 4, 9) && a5 == Corr(s, 5, 9) && a6 == Corr(s, 6, 9) && a7 == Corr(s, 7, 9) &&
          a8 == Corr(s, 8, 9);
    L_ACF[0], L_ACF[1], L_ACF[2], L_ACF[3], L_ACF[4], L_ACF[5], L_ACF[6], L_ACF[7], L_ACF[8] := a0, a1, a2, a3,
          a4, a5, a6, a7, a8;
  }

  /** The other samples meet nine each. */
  method Accumulate(sp: array<int16>, L_ACF: array<int>)
    requires sp.Length == 160 && L_ACF.Length == 9
    requires forall k :: 0 <= k < 9 ==> L_ACF[k] == Corr(sp[..], k, 9)
    modifies L_ACF
    ensures forall k :: 0 <= k < 9 ==> L_ACF[k] == Corr(sp[..], k, 160)
  {
    ghost var s := sp[..];
    var i := 9;
    while i < 160
      invariant 9 <= i <= 160
      invariant forall k :: 0 <= k < 9 ==> L_ACF[k] == Corr(s, k, i)
    {
      AddSample(sp, L_ACF, i);
      i := i + 1;
    }
  }

  method AddSample(sp: array<int16>, L_ACF: array<int>, i: nat)
    requires sp.Length == 160 && L_ACF.Length == 9 && 9 <= i < 160
    modifies L_ACF
    ensures forall k :: 0 <= k < 9 ==> L_ACF[k] == old(L_ACF[k]) + Product(sp[i], sp[i - k])
  {
    hide Product;
    var sl := sp[i];
    L_ACF[0] := L_ACF[0] + Product(sl, sp[i]);
    L_ACF[1] := L_ACF[1] + Product(sl, sp[i - 1]);
    L_ACF[2] := L_ACF[2] + Product(sl, sp[i - 2]);
    L_ACF[3] := L_ACF[3] + Product(sl, sp[i - 3]);
    L_ACF[4] := L_ACF[4] + Product(sl, sp[i - 4]);
    L_ACF[5] := L_ACF[5] + Product(sl, sp[i - 5]);
    L_ACF[6] := L_ACF[6] + Product(sl, sp[i - 6]);
    L_ACF[7] := L_ACF[7] + Product(sl, sp[i - 7]);
    L_ACF[8] := L_ACF[8] + Product(sl, sp[i - 8]);
  }

  /** autocorrelation: leaves the rescaled frame in `amp`. */
  method AutocorrelationOf(amp: array<int16>, L_ACF: array<int>)
    requires amp.Length == 160 && L_ACF.Length == 9
    modifies amp, L_ACF
    ensures L_ACF[..] == Acf(old(amp[..]))
    ensures amp[..] == RescaledFrame(old(amp[..]))
  {
    hide Corr, Scaled, Rescaled, MaxAbs, ScaleAmount;
    ghost var s := amp[..];
    var smax := MaximumMagnitude(amp);
    var scalauto := ScaleAmount(smax);
    if scalauto > 0 {
      ScaleDown(amp, scalauto);
    } else {
      NothingToScale(s, scalauto);
    }
    assert amp[..] == ScaledFrame(s);
    Prologue(amp, L_ACF);
    Accumulate(amp, L_ACF);
    DoubleAll(L_ACF);
    assert amp[..] == ScaledFrame(s);
    assert L_ACF[..] == Acf(s);
    if scalauto > 0 {
      ScaleUp(amp, scalauto);
    } else {
      NothingToScale(ScaledFrame(s), scalauto);
    }
    assert amp[..] == RescaledFrame(s);
  }

  lemma NothingToScale(s: seq<int16>, scalauto: int)
    requires scalauto <= 0
    ensures forall i :: 0 <= i < |s| ==> Scaled(s[i], scalauto) == s[i] == Rescaled(s[i], scalauto)
  {
  }

  method DoubleAll(L_ACF: array<int>)
    requires L_ACF.Length == 9
    modifies L_ACF
    ensures forall k :: 0 <= k < 9 ==> L_ACF[k] == 2 * old(L_ACF[k])
  {
    for k := 0 to 9
      invariant forall i :: 0 <= i < k ==> L_ACF[i] == 2 * old(L_ACF[i])
      invariant forall i :: k <= i < 9 ==> L_ACF[i] == old(L_ACF[i])
    {
      L_ACF[k] := L_ACF[k] * 2;
    }
  }
}
