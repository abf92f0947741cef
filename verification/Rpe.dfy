/** Regular pulse excitation (gsm0610_rpe.c, sections 4.2.13, 4.2.14 and 4.2.17 of
    GSM 06.10): weighting filter, choice of the grid, positioning on the grid, and
    RPE coding and decoding of a sub-frame. */
module Rpe {
  import opened Saturated
  import opened Autocorrelation
  import opened Apcm

  type Sub40 = s: seq<int16> | |s| == 40 witness seq(40, _ => 0)

  // ---- 4.2.13: the weighting filter ----

  /** The residual sub-frame, continued by zeros on both sides. */
  function ZeroPadded(e: Sub40, i: int): int16 {
    if 0 <= i < 40 then e[i] else 0
  }

  /** Convolution with the eleven symmetric coefficients of table 4.4. */
  function Convolved(e: Sub40, k: int): int {
    8192 * ZeroPadded(e, k)
    + 5741 * (ZeroPadded(e, k - 1) + ZeroPadded(e, k + 1))
    + 2054 * (ZeroPadded(e, k - 2) + ZeroPadded(e, k + 2))
    - 374 * (ZeroPadded(e, k - 4) + ZeroPadded(e, k + 4))
    - 134 * (ZeroPadded(e, k - 5) + ZeroPadded(e, k + 5))
  }

  function Weighted(e: Sub40): Sub40 {
    seq(40, k requires 0 <= k < 40 => Saturate((4096 + Convolved(e, k)) / 8192))
  }

  /** The eleven coefficients, two of them zero. */
  const GSM_H: seq<int> := [-134, -374, 0, 2054, 5741, 8192, 5741, 2054, 0, -374, -134]

  /** The accumulator after the first `n` coefficients, with the rounding in it. */
  function Accumulated(e: Sub40, k: int, n: nat): int
    requires n <= 11
  {
    if n == 0 then 4096 else Accumulated(e, k, n - 1) + GSM_H[n - 1] * ZeroPadded(e, k + n - 6)
  }

  lemma Term(e: Sub40, k: int, n: nat, h: int)
    requires 1 <= n <= 11 && GSM_H[n - 1] == h
    ensures Accumulated(e, k, n) == Accumulated(e, k, n - 1) + h * ZeroPadded(e, k + n - 6)
  {
  }

  lemma FirstTerms(e: Sub40, k: int)
    ensures Accumulated(e, k, 6)
         == 4096 - 134 * ZeroPadded(e, k - 5) - 374 * ZeroPadded(e, k - 4) + 2054 * ZeroPadded(e, k - 2)
            + 5741 * ZeroPadded(e, k - 1) + 8192 * ZeroPadded(e, k)
  {
    assert Accumulated(e, k, 0) == 4096;
    hide ZeroPadded, Accumulated;
    Term(e, k, 1, -134);
    Term(e, k, 2, -374);
    Term(e, k, 3, 0);
    Term(e, k, 4, 2054);
    Term(e, k, 5, 5741);
    Term(e, k, 6, 8192);
  }

  lemma LastTerms(e: Sub40, k: int)
    ensures Accumulated(e, k, 11)
         == Accumulated(e, k, 6) + 5741 * ZeroPadded(e, k + 1) + 2054 * ZeroPadded(e, k + 2)
            - 374 * ZeroPadded(e, k + 4) - 134 * ZeroPadded(e, k + 5)
  {
    hide ZeroPadded, Accumulated;
    Term(e, k, 7, 5741);
    Term(e, k, 8, 2054);
    Term(e, k, 9, 0);
    Term(e, k, 10, -374);
    Term(e, k, 11, -134);
  }

  /** Magnitudes of the first `n` coefficients. */
  function Gain(n: nat): nat
    requires n <= 11
  {
    if n == 0 then 0 else Gain(n - 1) + Abs(GSM_H[n - 1])
  }

  lemma {:induction false} GainGrows(n: nat)
    requires n <= 11
    ensures Gain(n) <= Gain(11)
    decreases 11 - n
  {
    if n < 11 { GainGrows(n + 1); }
  }

  lemma WholeGain()
    ensures Gain(11) == 24798
  {
    assert Gain(2) == 508;
    assert Gain(4) == 2562;
    assert Gain(6) == 16495;
    assert Gain(8) == 24290;
    assert Gain(10) == 24664;
  }

  lemma {:induction false} TermsFit(e: Sub40, k: int, n: nat)
    requires n <= 11
    ensures -0x8000 * Gain(n) <= Accumulated(e, k, n) - 4096 <= 0x8000 * Gain(n)
  {
    hide ZeroPadded;
    if n > 0 {
      TermsFit(e, k, n - 1);
      TimesBounds(GSM_H[n - 1], ZeroPadded(e, k + n - 6), Abs(GSM_H[n - 1]), 0x8000);
    }
  }

  /** No partial sum leaves 32 bits, and the last one is the convolution. */
  lemma ConvolutionFits(e: Sub40, k: int, n: nat)
    requires n <= 11
    ensures -0x8000_0000 <= Accumulated(e, k, n) <= 0x7FFF_FFFF
    ensures Accumulated(e, k, 11) == 4096 + Convolved(e, k)
  {
    hide ZeroPadded, Accumulated, Gain;
    TermsFit(e, k, n);
    GainGrows(n);
    WholeGain();
    FirstTerms(e, k);
    LastTerms(e, k);
  }

  /** Where it does not saturate, the weighted sample is the convolution in units of 2^13,
      rounded. */
  lemma WeightedIsRounded(e: Sub40, k: nat)
    requires k < 40 && -0x8000 * 8192 <= Convolved(e, k) <= 0x7FFF * 8192
    ensures -4096 <= 8192 * Weighted(e)[k] - Convolved(e, k) <= 4096
  {
    hide Convolved;
  }

  /** A single sample of 8192 at position `i`. */
  function Impulse(i: nat): Sub40
    requires i < 40
  {
    seq(40, k requires 0 <= k < 40 => if k == i then 8192 else 0)
  }

  /** The coefficients are the response to an impulse of unit gain, 8192. */
  lemma WeightsAnImpulse(i: nat, k: nat)
    requires i < 40 && k < 40
    ensures Weighted(Impulse(i))[k] == if -5 <= k - i <= 5 then GSM_H[k - i + 5] else 0
  {
    var e := Impulse(i);
    var d := k - i;
    assert forall j :: ZeroPadded(e, j) == if j == i then 8192 else 0;
    hide ZeroPadded;
    if d < -5 || d > 5 {
      assert Convolved(e, k) == 0;
    } else {
      ImpulseTerm(e, i, k, d);
    }
  }

  lemma ImpulseTerm(e: Sub40, i: nat, k: nat, d: int)
    requires i < 40 && k == i + d && -5 <= d <= 5
    requires forall j :: ZeroPadded(e, j) == if j == i then 8192 else 0
    ensures Convolved(e, k) == 8192 * GSM_H[d + 5]
  {
    hide ZeroPadded;
    if d == -5 || d == 5 {
      assert Convolved(e, k) == -134 * 8192;
    } else if d == -4 || d == 4 {
      assert Convolved(e, k) == -374 * 8192;
    } else if d == -3 || d == 3 {
      assert Convolved(e, k) == 0;
    } else if d == -2 || d == 2 {
      assert Convolved(e, k) == 2054 * 8192;
    } else if d == -1 || d == 1 {
      assert Convolved(e, k) == 5741 * 8192;
    } else {
      assert Convolved(e, k) == 8192 * 8192;
    }
  }

  /** The margins that the coder keeps around the residual are zero. */
  predicate ZeroMargins(buffer: seq<int16>) {
    |buffer| == 50 && (forall i :: 0 <= i < 5 ==> buffer[i] == 0) && (forall i :: 45 <= i < 50 ==> buffer[i] == 0)
  }

  lemma PaddedRead(buffer: seq<int16>, i: int)
    requires ZeroMargins(buffer) && -5 <= i < 45
    ensures buffer[i + 5] == ZeroPadded(buffer[5..45], i)
  {
  }

  /** weighting_filter.  The source steps its pointer back into the left margin and
      then reads eleven entries per output sample. */
  method WeightingFilter(x: array<int16>, e: array<int16>)
    requires x.Length == 40 && x != e && ZeroMargins(e[..])
    modifies x
    ensures x[..] == Weighted(e[5..45])
  {
    ghost var buffer := e[..];
    ghost var signal: Sub40 := buffer[5..45];
    for k := 0 to 40
      invariant e[..] == buffer
      invariant forall i :: 0 <= i < k ==> x[i] == Saturate((4096 + Convolved(signal, i)) / 8192)
    {
      var L_result := WeightedSum(e, k);
      L_result := L_result / 8192;
      x[k] := Saturate(L_result);
    }
  }

  method WeightedSum(e: array<int16>, k: nat) returns (L_result: int32)
    requires ZeroMargins(e[..]) && k < 40
    ensures L_result == 4096 + Convolved(e[5..45], k)
  {
    L_result := 4096;
    L_result := L_result + e[k] as int * -134;
    L_result := L_result + e[k + 1] as int * -374;
    L_result := L_result + e[k + 3] as int * 2054;
    L_result := L_result + e[k + 4] as int * 5741;
    L_result := L_result + e[k + 5] as int * 8192;
    L_result := L_result + e[k + 6] as int * 5741;
    L_result := L_result + e[k + 7] as int * 2054;
    L_result := L_result + e[k + 9] as int * -374;
    L_result := L_result + e[k + 10] as int * -134;
    ghost var b := e[..];
    hide ZeroPadded;
    PaddedRead(b, k - 5);
    PaddedRead(b, k - 4);
    PaddedRead(b, k - 2);
    PaddedRead(b, k - 1);
    PaddedRead(b, k);
    PaddedRead(b, k + 1);
    PaddedRead(b, k + 2);
    PaddedRead(b, k + 4);
    PaddedRead(b, k + 5);
  }

  // ---- 4.2.14: the grid ----

  function Step(x: Sub40, i: nat): int
    requires i < 40
  {
    Product(x[i] / 4, x[i] / 4)
  }

  /** Energy of the terms `lo` to `hi - 1` of the decimated signal that starts at `m`. */
  function Energy(x: Sub40, m: nat, lo: nat, hi: nat): int
    requires m <= 3 && lo <= hi <= 13
    decreases hi - lo
  {
    if lo == hi then 0 else Energy(x, m, lo, hi - 1) + Step(x, m + 3 * (hi - 1))
  }

  lemma {:induction false} EnergyBounds(x: Sub40, m: nat, lo: nat, hi: nat)
    requires m <= 3 && lo <= hi <= 13
    ensures 0 <= Energy(x, m, lo, hi) <= (hi - lo) * 0x400_0000
    decreases hi - lo
  {
    if lo < hi {
      EnergyBounds(x, m, lo, hi - 1);
      SquareFits(x[m + 3 * (hi - 1)]);
    }
  }

  lemma SquareFits(v: int16)
    ensures 0 <= Product(v / 4, v / 4) <= 0x400_0000
  {
    ProductBounds(v / 4, v / 4, 8192, 8192);
    SquareBound(v / 4, 0);
  }

  /** Grids 0 and 3 share twelve of their thirteen samples. */
  lemma {:induction false} SharedEnergy(x: Sub40, n: nat)
    requires n <= 12
    ensures Energy(x, 3, 0, n) == Energy(x, 0, 1, n + 1)
  {
    if n > 0 { SharedEnergy(x, n - 1); }
  }

  lemma {:induction false} FirstTermApart(x: Sub40, m: nat, n: nat)
    requires m <= 3 && 1 <= n <= 13
    ensures Energy(x, m, 0, n) == Step(x, m) + Energy(x, m, 1, n)
    decreases n
  {
    if n > 1 {
      FirstTermApart(x, m, n - 1);
    } else {
      assert Energy(x, m, 0, 0) == 0;
    }
  }

  /** Index of the first greatest of four values. */
  function FirstGreatest(e0: int, e1: int, e2: int, e3: int): (g: nat)
    ensures g <= 3
  {
    if e0 >= e1 && e0 >= e2 && e0 >= e3 then 0
    else if e1 >= e2 && e1 >= e3 then 1
    else if e2 >= e3 then 2
    else 3
  }

  /** Energy of a whole grid, which takes every third sample. */
  function GridEnergy(x: Sub40, m: nat): int
    requires m <= 3
  {
    Energy(x, m, 0, |x| / 3)
  }

  function GridOf(x: Sub40): (mc: nat)
    ensures mc <= 3
  {
    FirstGreatest(GridEnergy(x, 0), GridEnergy(x, 1), GridEnergy(x, 2), GridEnergy(x, 3))
  }

  /** No grid has more energy than the chosen one, and no earlier grid as much. */
  lemma GridIsFirstMaximiser(x: Sub40, m: nat)
    requires m <= 3
    ensures GridEnergy(x, m) <= GridEnergy(x, GridOf(x))
    ensures m < GridOf(x) ==> GridEnergy(x, m) < GridEnergy(x, GridOf(x))
  {
    hide Energy;
    var mc := GridOf(x);
    if m == 0 {
    } else if m == 1 {
    } else if m == 2 {
    } else {
    }
  }

  function Decimated(x: Sub40, mc: nat): (xM: seq<int16>)
    requires mc <= 3
    ensures |xM| == 13
  {
    seq(13, i requires 0 <= i < 13 => x[mc + 3 * i])
  }

  /** Stands for the runs of STEP lines of the source: terms `lo` to `hi - 1`. */
  method StepLines(x: array<int16>, m: nat, lo: nat, hi: nat, start: int32) returns (L_result: int32)
    requires x.Length == 40 && m <= 3 && lo <= hi <= 13 && 0 <= start <= 0x400_0000
    ensures L_result == start + Energy(x[..], m, lo, hi)
  {
    L_result := start;
    for i := lo to hi
      invariant L_result == start + Energy(x[..], m, lo, i)
    {
      EnergyBounds(x[..], m, lo, i + 1);
      var L_temp := x[m + 3 * i] / 4;
      L_result := L_result + Product(L_temp, L_temp);
    }
  }

  /** rpe_grid_selection. */
  method RpeGridSelection(x: array<int16>) returns (xM: seq<int16>, Mc: int16)
    requires x.Length == 40
    ensures Mc == GridOf(x[..]) && xM == Decimated(x[..], Mc)
  {
    hide Energy, Step;
    ghost var s: Sub40 := x[..];
    var common := StepLines(x, 0, 1, 13, 0);
    var square := Product(x[0] / 4, x[0] / 4);
    assert square == Step(s, 0) by { StepIs(s, 0); }
    FirstTermApart(s, 0, 13);
    EnergyBounds(s, 0, 0, 13);
    EnergyBounds(s, 1, 0, 13);
    EnergyBounds(s, 2, 0, 13);
    EnergyBounds(s, 3, 0, 13);
    var EM: int32 := (common + square) * 2;
    Mc := 0;
    var L_result: int32 := StepLines(x, 1, 0, 13, 0);
    L_result := L_result * 2;
    if L_result > EM {
      Mc := 1;
      EM := L_result;
    }
    L_result := StepLines(x, 2, 0, 13, 0);
    L_result := L_result * 2;
    if L_result > EM {
      Mc := 2;
      EM := L_result;
    }
    SharedEnergy(s, 12);
    LastTerm(s);
    square := Product(x[39] / 4, x[39] / 4);
    assert square == Step(s, 39) by { StepIs(s, 39); }
    L_result := (common + square) * 2;
    if L_result > EM {
      Mc := 3;
      EM := L_result;
    }
    xM := [];
    for i := 0 to 13
      invariant |xM| == i && forall k :: 0 <= k < i ==> xM[k] == s[Mc + 3 * k]
    {
      xM := xM + [x[Mc + 3 * i]];
    }
  }

  lemma StepIs(x: Sub40, i: nat)
    requires i < 40
    ensures Step(x, i) == Product(x[i] / 4, x[i] / 4)
  {
  }

  lemma LastTerm(x: Sub40)
    ensures Energy(x, 3, 0, 13) == Energy(x, 3, 0, 12) + Step(x, 39)
  {
  }

  // ---- 4.2.17: positioning on the grid ----

  /** Entry `k` of the sub-frame: sample `i` at `mc + 3 * i`, and zero elsewhere. */
  function PositionedAt(mc: nat, xMp: seq<int16>, k: nat): int16
    requires mc <= 3 && |xMp| == 13 && k < 40
  {
    if mc <= k <= mc + 36 && (k - mc) % 3 == 0 then xMp[(k - mc) / 3] else 0
  }

  function Positioned(mc: nat, xMp: seq<int16>): Sub40
    requires mc <= 3 && |xMp| == 13
  {
    seq(40, k requires 0 <= k < 40 => PositionedAt(mc, xMp, k))
  }

  /** Entry `k` belongs to grid `mc`. */
  predicate OnGrid(mc: nat, k: nat) {
    mc <= k <= mc + 36 && (k - mc) % 3 == 0
  }

  /** Positioning is the one right inverse of decimation that leaves the rest silent. */
  lemma PositionedIffDecimated(mc: nat, xMp: seq<int16>, x: Sub40)
    requires mc <= 3 && |xMp| == 13
    ensures x == Positioned(mc, xMp)
       <==> Decimated(x, mc) == xMp && forall k :: 0 <= k < 40 && !OnGrid(mc, k) ==> x[k] == 0
  {
    var p := Positioned(mc, xMp);
    forall i | 0 <= i < 13
      ensures p[mc + 3 * i] == xMp[i]
    {
      assert (mc + 3 * i - mc) / 3 == i;
    }
    assert Decimated(p, mc) == xMp;
    if Decimated(x, mc) == xMp && forall k :: 0 <= k < 40 && !OnGrid(mc, k) ==> x[k] == 0 {
      forall k | 0 <= k < 40
        ensures x[k] == p[k]
      {
        if OnGrid(mc, k) {
          var i := (k - mc) / 3;
          assert k == mc + 3 * i && Decimated(x, mc)[i] == x[k];
        }
      }
    }
  }

  /** The samples land three apart from the grid offset on. */
  lemma SampleOnGrid(mc: nat, xMp: seq<int16>, i: nat)
    requires mc <= 3 && |xMp| == 13 && i < 13
    ensures Positioned(mc, xMp)[mc + 3 * i] == xMp[i]
    ensures i < 12 ==> Positioned(mc, xMp)[mc + 3 * i + 1] == 0 && Positioned(mc, xMp)[mc + 3 * i + 2] == 0
  {
  }

  /** Nothing lands before the first or behind the last sample. */
  lemma ZeroOffGrid(mc: nat, xMp: seq<int16>, k: nat)
    requires mc <= 3 && |xMp| == 13 && k < 40 && (k < mc || k > mc + 36)
    ensures Positioned(mc, xMp)[k] == 0
  {
  }

  /** rpe_grid_positioning.  The switch of the source jumps into the body of its
      loop: the first turn starts at the label chosen by `Mc` and so writes fewer
      zeros than the others.  Exactly forty entries are written, from `start` on. */
  method RpeGridPositioning(Mc: nat, xMp: seq<int16>, ep: array<int16>, start: nat)
    requires Mc <= 3 && |xMp| == 13 && start + 40 <= ep.Length
    modifies ep
    ensures ep[start..start + 40] == Positioned(Mc, xMp)
    ensures ep[..start] == old(ep[..start]) && ep[start + 40..] == old(ep[start + 40..])
  {
    hide Positioned;
    var p := LeadingZeros(Mc, xMp, ep, start);
    SampleOnGrid(Mc, xMp, 0);
    ep[p] := xMp[0];
    p := p + 1;
    ghost var goal := Positioned(Mc, xMp);
    var i := 12;
    while i != 0
      invariant 0 <= i <= 12 && p == start + Mc + 1 + 3 * (12 - i)
      invariant forall k :: 0 <= k < p - start ==> ep[start + k] == goal[k]
      invariant ep[..start] == old(ep[..start]) && ep[start + 40..] == old(ep[start + 40..])
    {
      SampleOnGrid(Mc, xMp, 12 - i);
      SampleOnGrid(Mc, xMp, 13 - i);
      ep[p] := 0;
      ep[p + 1] := 0;
      ep[p + 2] := xMp[13 - i];
      p := p + 3;
      i := i - 1;
    }
    TrailingZeros(Mc, xMp, ep, start, p);
  }

  /** Entry into the switch: label 3 falls through to labels 2, 1 and 0. */
  method LeadingZeros(Mc: nat, xMp: seq<int16>, ep: array<int16>, start: nat) returns (p: nat)
    requires Mc <= 3 && |xMp| == 13 && start + 40 <= ep.Length
    modifies ep
    ensures p == start + Mc
    ensures forall k :: 0 <= k < Mc ==> ep[start + k] == Positioned(Mc, xMp)[k]
    ensures ep[..start] == old(ep[..start]) && ep[start + 40..] == old(ep[start + 40..])
  {
    p := start;
    if Mc == 3 {
      ep[p] := 0;
      p := p + 1;
    }
    if Mc >= 2 {
      ep[p] := 0;
      p := p + 1;
    }
    if Mc >= 1 {
      ep[p] := 0;
      p := p + 1;
    }
  }

  /** The closing loop, up to forty entries. */
  method TrailingZeros(Mc: nat, xMp: seq<int16>, ep: array<int16>, start: nat, at: nat)
    requires Mc <= 3 && |xMp| == 13 && start + 40 <= ep.Length && at == start + Mc + 37
    requires forall k :: 0 <= k < at - start ==> ep[start + k] == Positioned(Mc, xMp)[k]
    modifies ep
    ensures ep[start..start + 40] == Positioned(Mc, xMp)
    ensures ep[..start] == old(ep[..start]) && ep[start + 40..] == old(ep[start + 40..])
  {
    hide Positioned;
    ghost var goal := Positioned(Mc, xMp);
    var p := at;
    var m := Mc + 1;
    while m < 4
      invariant Mc + 1 <= m <= 4 && p == start + 36 + m
      invariant forall k :: 0 <= k < p - start ==> ep[start + k] == goal[k]
      invariant ep[..start] == old(ep[..start]) && ep[start + 40..] == old(ep[start + 40..])
    {
      ZeroOffGrid(Mc, xMp, p - start);
      ep[p] := 0;
      p := p + 1;
      m := m + 1;
    }
  }

  // ---- coding and decoding of a sub-frame ----

  datatype Coded = Coded(mc: nat, block: Block) {
    predicate InRange() {
      mc <= 3 && block.InRange()
    }
  }

  /** What the coder sends for a residual sub-frame. */
  function RpeCode(e: Sub40): (c: Coded)
    ensures c.InRange()
  {
    hide Weighted, GridOf, CodeBlock, Decimated;
    var x := Weighted(e);
    Coded(GridOf(x), CodeBlock(Decimated(x, GridOf(x))))
  }

  /** What both ends rebuild from it. */
  function RpeDecode(c: Coded): Sub40
    requires c.InRange()
  {
    hide Positioned, DecodeBlock;
    Positioned(c.mc, DecodeBlock(c.block))
  }

  /** gsm0610_rpe_encoding: codes the residual in `e[5..45]` and replaces it by its
      reconstruction; the margins stay zero. */
  method RpeEncoding(e: array<int16>, xMc: array<int16>) returns (xmaxc: int16, Mc: int16)
    requires ZeroMargins(e[..]) && xMc.Length == 13 && xMc != e
    modifies e, xMc
    ensures 0 <= Mc && Coded(Mc, Block(xmaxc, xMc[..])) == RpeCode(old(e[5..45]))
    ensures ZeroMargins(e[..]) && e[5..45] == RpeDecode(RpeCode(old(e[5..45])))
  {
    hide Weighted, GridOf, CodeBlock, Decimated, Positioned, DecodeBlock, ExpMantOf;
    ghost var e0 := e[..];
    var x := new int16[40];
    WeightingFilter(x, e);
    var xM;
    xM, Mc := RpeGridSelection(x);
    var mant, exp;
    mant, exp, xmaxc := ApcmQuantization(xM, xMc);
    var xMp := new int16[13];
    ghost var coded := Coded(Mc, Block(xmaxc, xMc[..]));
    assert coded == RpeCode(e0[5..45]);
    ApcmInverseQuantization(xMc[..], mant, exp, xMp, xmaxc);
    assert e[..] == e0;
    RpeGridPositioning(Mc, xMp[..], e, 5);
    MarginsKept(e0, e[..]);
  }

  lemma MarginsKept(before: seq<int16>, after: seq<int16>)
    requires ZeroMargins(before) && |after| == 50
    requires after[..5] == before[..5] && after[45..] == before[45..]
    ensures ZeroMargins(after)
  {
    assert forall i :: 0 <= i < 5 ==> after[i] == after[..5][i];
    assert forall i :: 45 <= i < 50 ==> after[i] == after[45..][i - 45] && before[i] == before[45..][i - 45];
  }

  /** gsm0610_rpe_decoding. */
  method RpeDecoding(xmaxc: int16, Mcr: int16, xMcr: seq<int16>, erp: array<int16>)
    requires 0 <= Mcr && Coded(Mcr, Block(xmaxc, xMcr)).InRange() && erp.Length == 40
    modifies erp
    ensures erp[..] == RpeDecode(Coded(Mcr, Block(xmaxc, xMcr)))
  {
    hide Positioned, DecodeBlock, ExpMantOf;
    var exp, mant := XmaxcToExpMant(xmaxc);
    var xMp := new int16[13];
    ApcmInverseQuantization(xMcr, mant, exp, xMp, xmaxc);
    RpeGridPositioning(Mcr, xMp[..], erp, 0);
    assert erp[0..40] == erp[..];
  }
}
