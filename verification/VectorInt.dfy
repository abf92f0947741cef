/** Dot products of vector_int.c (portable branch), plain and over a circular buffer. */
module VectorInt {
  import opened Saturated

  function Dot(xs: seq<int>, ys: seq<int>): int
    requires |xs| == |ys|
  {
    if xs == [] then 0
    else Dot(xs[..|xs| - 1], ys[..|ys| - 1]) + Product(xs[|xs| - 1], ys[|ys| - 1])
  }

  lemma {:induction false} DotConcat(xs: seq<int>, ys: seq<int>, us: seq<int>, vs: seq<int>)
    requires |xs| == |ys| && |us| == |vs|
    ensures Dot(xs + us, ys + vs) == Dot(xs, ys) + Dot(us, vs)
  {
    if us == [] {
      assert xs + us == xs && ys + vs == ys;
    } else {
      var n := |us| - 1;
      DotConcat(xs, ys, us[..n], vs[..n]);
      assert (xs + us)[..|xs| + n] == xs + us[..n];
      assert (ys + vs)[..|ys| + n] == ys + vs[..n];
    }
  }

  function AbsSum(ys: seq<int>): (r: int)
    ensures r >= 0
  {
    if ys == [] then 0 else AbsSum(ys[..|ys| - 1]) + Abs(ys[|ys| - 1])
  }

  /** Samples bounded by `m` give a dot product bounded by `m` times the gain. */
  lemma {:induction false} DotBound(xs: seq<int>, ys: seq<int>, m: int)
    requires |xs| == |ys| && m >= 0
    requires forall i :: 0 <= i < |xs| ==> -m <= xs[i] <= m
    ensures -(m * AbsSum(ys)) <= Dot(xs, ys) <= m * AbsSum(ys)
  {
    if xs != [] {
      var n := |xs| - 1;
      DotBound(xs[..n], ys[..n], m);
      ProductBounds(xs[n], ys[n], m, Abs(ys[n]));
      assert m * (AbsSum(ys[..n]) + Abs(ys[n])) == m * AbsSum(ys[..n]) + m * Abs(ys[n]);
    }
  }

  lemma {:induction false} AbsSumOfStretch(ys: seq<int>, i: nat, j: nat)
    requires i <= j <= |ys|
    ensures AbsSum(ys[i..j]) <= AbsSum(ys)
    decreases |ys|
  {
    if j < |ys| {
      AbsSumOfStretch(ys[..|ys| - 1], i, j);
      assert ys[..|ys| - 1][i..j] == ys[i..j];
    } else if i < j {
      AbsSumOfStretch(ys[..|ys| - 1], i, j - 1);
      assert ys[i..j][..j - i - 1] == ys[..|ys| - 1][i..j - 1];
    }
  }

  /** Accumulating the products of any stretch, term by term, stays within 32 bits. */
  predicate PartialSumsFit(xs: seq<int>, ys: seq<int>)
    requires |xs| == |ys|
  {
    forall i, j :: 0 <= i <= j <= |xs| ==> -0x8000_0000 <= Dot(xs[i..j], ys[i..j]) <= 0x7FFF_FFFF
  }

  lemma GainFits(xs: seq<int>, ys: seq<int>, m: int)
    requires |xs| == |ys| && m >= 0 && m * AbsSum(ys) <= 0x7FFF_FFFF
    requires forall i :: 0 <= i < |xs| ==> -m <= xs[i] <= m
    ensures PartialSumsFit(xs, ys)
  {
    hide Dot, AbsSum;
    forall i, j | 0 <= i <= j <= |xs|
      ensures -0x8000_0000 <= Dot(xs[i..j], ys[i..j]) <= 0x7FFF_FFFF
    {
      DotBound(xs[i..j], ys[i..j], m);
      AbsSumOfStretch(ys, i, j);
      assert m * AbsSum(ys[i..j]) <= m * AbsSum(ys);
    }
  }

  lemma SumIsExact(xs: seq<int>, ys: seq<int>)
    requires |xs| == |ys| && PartialSumsFit(xs, ys)
    ensures Wrap32(Dot(xs, ys)) == Dot(xs, ys)
  {
    hide Dot, PartialSumsFit;
    WholeStretch(xs, ys);
  }

  lemma WholeStretch(xs: seq<int>, ys: seq<int>)
    requires |xs| == |ys| && PartialSumsFit(xs, ys)
    ensures -0x8000_0000 <= Dot(xs, ys) <= 0x7FFF_FFFF
  {
    hide Dot;
    assert xs[0..|xs|] == xs && ys[0..|xs|] == ys;
    assert -0x8000_0000 <= Dot(xs[0..|xs|], ys[0..|xs|]) <= 0x7FFF_FFFF;
  }

  /** vec_dot_prodi16 on `n` samples starting at `x[xFrom]` and `y[yFrom]`. */
  method VecDotProdi16(x: array<int16>, xFrom: nat, y: seq<int16>, yFrom: nat, n: nat) returns (z: int32)
    requires xFrom + n <= x.Length && yFrom + n <= |y|
    ensures z == Wrap32(Dot(x[xFrom..xFrom + n], y[yFrom..yFrom + n]))
    ensures PartialSumsFit(x[xFrom..xFrom + n], y[yFrom..yFrom + n])
        ==> z == Dot(x[xFrom..xFrom + n], y[yFrom..yFrom + n])
  {
    hide Wrap32, PartialSumsFit;
    z := 0;
    ZeroWraps();
    for i := 0 to n
      invariant z == Wrap32(Dot(x[xFrom..xFrom + i], y[yFrom..yFrom + i]))
    {
      var term := Product(x[xFrom + i], y[yFrom + i]);
      WrapAccumulate(z, Dot(x[xFrom..xFrom + i], y[yFrom..yFrom + i]), term);
      z := Wrap32(z + term);
      assert x[xFrom..xFrom + i + 1][..i] == x[xFrom..xFrom + i];
      assert y[yFrom..yFrom + i + 1][..i] == y[yFrom..yFrom + i];
    }
    if PartialSumsFit(x[xFrom..xFrom + n], y[yFrom..yFrom + n]) {
      SumIsExact(x[xFrom..xFrom + n], y[yFrom..yFrom + n]);
    }
  }

  lemma ZeroWraps()
    ensures Wrap32(0) == 0
  {
  }

  /** A circular buffer read from its oldest entry on. */
  function Unrolled<T>(x: seq<T>, pos: nat): (r: seq<T>)
    requires pos <= |x|
    ensures |r| == |x|
  {
    x[pos..] + x[..pos]
  }

  /** Overwriting the entry at `pos` and stepping past it, with the wrap of the
      source, drops the oldest entry and appends the new one. */
  lemma UnrolledAfterWrite<T>(x: seq<T>, pos: nat, v: T)
    requires pos < |x|
    ensures Unrolled(x[pos := v], if pos + 1 >= |x| then 0 else pos + 1) == Unrolled(x, pos)[1..] + [v]
  {
  }

  method VecCircularDotProdi16(x: array<int16>, y: seq<int16>, n: nat, pos: nat) returns (z: int32)
    requires x.Length == n == |y| && pos <= n
    ensures z == Wrap32(Dot(Unrolled(x[..], pos), y))
    ensures PartialSumsFit(Unrolled(x[..], pos), y) ==> z == Dot(Unrolled(x[..], pos), y)
  {
    hide Dot, Wrap32, PartialSumsFit;
    z := VecDotProdi16(x, pos, y, 0, n - pos);
    var w := VecDotProdi16(x, 0, y, n - pos, pos);
    ghost var first := Dot(x[pos..pos + (n - pos)], y[0..0 + (n - pos)]);
    ghost var second := Dot(x[0..0 + pos], y[n - pos..n - pos + pos]);
    WrapAccumulate(w, second, z);
    WrapAccumulate(z, first, second);
    z := Wrap32(z + w);
    assert x[0..0 + pos] == x[..pos] && y[0..0 + (n - pos)] == y[..n - pos];
    DotConcat(x[pos..n], y[..n - pos], x[..pos], y[n - pos..n]);
    assert y == y[..n - pos] + y[n - pos..n];
    assert Unrolled(x[..], pos) == x[pos..n] + x[..pos];
    if PartialSumsFit(Unrolled(x[..], pos), y) { SumIsExact(Unrolled(x[..], pos), y); }
  }
}
