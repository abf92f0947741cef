/** Numbers as bit sequences, least significant bit first: the common measure of
    the packers and unpackers of both codecs. */
module BitStreams {
  import opened Saturated

  function Bits(v: nat, n: nat): (r: seq<bool>)
    ensures |r| == n
    decreases n
  {
    if n == 0 then [] else [v % 2 == 1] + Bits(v / 2, n - 1)
  }

  /** The value fits in `n` bits. */
  predicate Fits(v: nat, n: nat) {
    v < Shl(1, n)
  }

  lemma {:induction false} FitsHalf(v: nat, n: nat)
    requires n > 0
    ensures Fits(v, n) <==> Fits(v / 2, n - 1)
  {
    ShlTwice(1, n);
  }

  lemma PowersAtHand()
    ensures Shl(1, 0) == 1 && Shl(1, 1) == 2 && Shl(1, 2) == 4 && Shl(1, 3) == 8 && Shl(1, 4) == 16
    ensures Shl(1, 5) == 32 && Shl(1, 6) == 64 && Shl(1, 7) == 128 && Shl(1, 8) == 256
  {
    ShlTwice(1, 1);
    ShlTwice(1, 2);
    ShlTwice(1, 3);
    ShlTwice(1, 4);
    ShlTwice(1, 5);
    ShlTwice(1, 6);
    ShlTwice(1, 7);
    ShlTwice(1, 8);
  }

  lemma {:induction false} ShlFromOne(a: nat, b: nat)
    ensures Shl(Shl(1, a), b) == Shl(1, b + a)
    decreases b
  {
    if b > 0 {
      ShlFromOne(a, b - 1);
      ShlTwice(Shl(1, a), b);
      ShlTwice(1, b + a);
    }
  }

  lemma FitsAppend(v: nat, k: nat, c: nat, m: nat)
    requires Fits(v, k) && Fits(c, m)
    ensures Shl(c, k) >= 0
    ensures Fits(v + Shl(c, k), k + m)
  {
    ShlGrows(c, k);
    ShlIsLinear(c, 1, k);
    ShlIsMonotone(c + 1, Shl(1, m), k);
    ShlFromOne(m, k);
  }

  lemma FitsShr(v: nat, n: nat, w: nat)
    requires w <= n && Fits(v, n)
    ensures Shr(v, w) >= 0 && Fits(Shr(v, w), n - w)
  {
    var q := Shr(v, w);
    BitsSplit(v, w, 0);
    ShrIsFloor(v, w, q);
    ShlFromOne(n - w, w);
    if q >= Shl(1, n - w) { ShlIsMonotone(Shl(1, n - w), q, w); }
  }

  /** The low `w` bits: `v & (2^w - 1)`. */
  function Low(v: int, w: nat): (r: nat)
    ensures Fits(r, w)
  {
    ShrIsFloor(v, w, Shr(v, w));
    ShlIsLinear(Shr(v, w), 1, w);
    v - Shl(Shr(v, w), w)
  }

  lemma LowOfFitting(v: nat, w: nat)
    requires Fits(v, w)
    ensures Low(v, w) == v
  {
    ShrIsFloor(v, w, 0);
    ShlIsLinear(0, 0, w);
  }

  lemma BitsOfLow(v: nat, w: nat)
    ensures Bits(Low(v, w), w) == Bits(v, w)
  {
    BitsSplit(v, w, 0);
    BitsAppend(Low(v, w), w, Shr(v, w), 0);
  }

  lemma {:induction false} BitsAppend(v: nat, k: nat, c: nat, m: nat)
    requires Fits(v, k)
    ensures Shl(c, k) >= 0
    ensures Bits(v + Shl(c, k), k + m) == Bits(v, k) + Bits(c, m)
    decreases k
  {
    ShlGrows(c, k);
    if k == 0 {
      assert v == 0;
    } else {
      FitsHalf(v, k);
      ShlTwice(c, k);
      BitsAppend(v / 2, k - 1, c, m);
      assert (v + Shl(c, k)) / 2 == v / 2 + Shl(c, k - 1);
    }
  }

  lemma {:induction false} BitsSplit(v: nat, k: nat, m: nat)
    ensures Shr(v, k) >= 0
    ensures Bits(v, k + m) == Bits(v, k) + Bits(Shr(v, k), m)
    decreases k
  {
    if k > 0 { BitsSplit(v / 2, k - 1, m); }
  }

  lemma {:induction false} BitsInjective(v: nat, w: nat, n: nat)
    requires Fits(v, n) && Fits(w, n) && Bits(v, n) == Bits(w, n)
    ensures v == w
    decreases n
  {
    if n > 0 {
      FitsHalf(v, n);
      FitsHalf(w, n);
      assert Bits(v, n)[0] == Bits(w, n)[0];
      assert Bits(v, n)[1..] == Bits(v / 2, n - 1) && Bits(w, n)[1..] == Bits(w / 2, n - 1);
      BitsInjective(v / 2, w / 2, n - 1);
    }
  }

  lemma Associate<T>(a: seq<T>, b: seq<T>, c: seq<T>)
    ensures (a + b) + c == a + (b + c)
  {
  }

  /** Two conservation laws in a row make one. */
  lemma Chain<T>(x: seq<T>, a: seq<T>, e: seq<T>, y: seq<T>, b: seq<T>, f: seq<T>, z: seq<T>)
    requires x + a == e + y && y + b == f + z
    ensures x + (a + b) == (e + f) + z
  {
    Associate(x, a, b);
    Associate(e, y, b);
    Associate(e, f, z);
  }

  lemma SameParts<T>(a: seq<T>, x: seq<T>, b: seq<T>, y: seq<T>)
    requires |a| == |b| && a + x == b + y
    ensures a == b && x == y
  {
    assert (a + x)[..|a|] == a && (b + y)[..|a|] == b;
    assert (a + x)[|a|..] == x && (b + y)[|a|..] == y;
  }

  lemma SnocPrefix<T>(a: seq<T>, b: seq<T>, n: nat)
    requires 0 < n <= |a| && n <= |b| && a[..n - 1] == b[..n - 1] && a[n - 1] == b[n - 1]
    ensures a[..n] == b[..n]
  {
    assert a[..n] == a[..n - 1] + [a[n - 1]] && b[..n] == b[..n - 1] + [b[n - 1]];
  }

  lemma PrefixOfWhole<T>(a: seq<T>, b: seq<T>, c: seq<T>)
    requires a + b <= c
    ensures a <= c
  {
    assert (a + b)[..|a|] == a;
    assert c[..|a + b|][..|a|] == c[..|a|];
  }

  /** The bits of a sequence of codes of equal width. */
  function StreamOf(codes: seq<nat>, w: nat): (r: seq<bool>) {
    if codes == [] then [] else Bits(codes[0], w) + StreamOf(codes[1..], w)
  }

  lemma {:induction false} StreamConcat(a: seq<nat>, b: seq<nat>, w: nat)
    ensures StreamOf(a + b, w) == StreamOf(a, w) + StreamOf(b, w)
  {
    if a == [] {
      assert a + b == b;
    } else {
      hide Bits;
      StreamConcat(a[1..], b, w);
      assert (a + b)[1..] == a[1..] + b;
      Associate(Bits(a[0], w), StreamOf(a[1..], w), StreamOf(b, w));
    }
  }

  lemma StreamSnoc(a: seq<nat>, c: nat, w: nat)
    ensures StreamOf(a + [c], w) == StreamOf(a, w) + Bits(c, w)
  {
    StreamConcat(a, [c], w);
    OneCode(c, w);
  }

  lemma OneCode(c: nat, w: nat)
    ensures StreamOf([c], w) == Bits(c, w)
  {
    assert [c][1..] == [] && StreamOf([], w) == [];
  }

  lemma {:induction false} StreamLength(codes: seq<nat>, w: nat)
    ensures |StreamOf(codes, w)| == w * |codes|
  {
    if codes != [] {
      StreamLength(codes[1..], w);
      assert w * (|codes| - 1) + w == w * |codes|;
    }
  }

  predicate AllFit(codes: seq<nat>, w: nat) {
    forall k :: 0 <= k < |codes| ==> Fits(codes[k], w)
  }

  /** Codes are determined by their bits: a stream that is a prefix of another comes
      from a prefix of its codes. */
  lemma {:induction false} StreamPrefix(a: seq<nat>, b: seq<nat>, w: nat)
    requires w > 0 && AllFit(a, w) && AllFit(b, w)
    requires StreamOf(a, w) <= StreamOf(b, w)
    ensures a <= b
    decreases |a|
  {
    hide Bits, Fits;
    if a != [] {
      assert StreamOf(a, w) == Bits(a[0], w) + StreamOf(a[1..], w);
      assert b != [];
      assert StreamOf(b, w) == Bits(b[0], w) + StreamOf(b[1..], w);
      SplitPrefix(Bits(a[0], w), StreamOf(a[1..], w), Bits(b[0], w), StreamOf(b[1..], w));
      BitsInjective(a[0], b[0], w);
      StreamPrefix(a[1..], b[1..], w);
      assert a == [a[0]] + a[1..] && b == [b[0]] + b[1..];
    }
  }

  lemma SplitPrefix<T>(h1: seq<T>, t1: seq<T>, h2: seq<T>, t2: seq<T>)
    requires |h1| == |h2| && h1 + t1 <= h2 + t2
    ensures h1 == h2 && t1 <= t2
  {
    var s1, s2 := h1 + t1, h2 + t2;
    assert s1[..|h1|] == h1 && s2[..|h1|] == h2;
    assert s1[|h1|..] == t1 && s2[|h1|..] == t2;
    assert s1 == s2[..|s1|];
  }
}
