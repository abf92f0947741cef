/** One sub-band of G.722: the adaptive predictor `block4` and the adaptive scale
    factor of g722.c (sections 3.5 and 3.6 of ITU-T G.722). */
module G722Band {
  import opened Saturated
  import opened G722Tables

  /** A snapshot of the fields of g722_band_t. */
  datatype Band = Band(nb: int16, det: int16, s: int16, sz: int16, r: int16,
                       p0: int16, p1: int16, a0: int16, a1: int16,
                       b: seq<int16>, d: seq<int16>)
  {
    predicate Shaped() {
      |b| == 6 && |d| == 7
    }
  }

  /** `(x ^ y) & 0x8000`: the sign bits differ. */
  predicate SignsDiffer(x: int16, y: int16) {
    (x < 0) != (y < 0)
  }

  // ---- block 4: prediction ----

  /** The sum assigned to wd3 in UPPOL2, before the cast to 16 bits. */
  function PoleTwoSum(a0: int16, a1: int16, p: int16, p0: int16, p1: int16): int {
    var wd1: int := Saturate(a0 * 4);
    var wd32 := if SignsDiffer(p, p0) then wd1 else -wd1;
    var limited := if wd32 > 32767 then 32767 else wd32;
    (if SignsDiffer(p, p1) then -128 else 128) + limited / 128 + a1 * 32512 / 0x8000
  }

  function PoleTwo(a0: int16, a1: int16, p: int16, p0: int16, p1: int16): (ap1: int16)
    ensures -12288 <= ap1 <= 12288
  {
    var wd3 := Wrap16(PoleTwoSum(a0, a1, p, p0, p1));
    if Abs(wd3) > 12288 then (if wd3 < 0 then -12288 else 12288) else wd3
  }

  function PoleOne(a0: int16, ap1: int16, p: int16, p0: int16): (ap0: int16)
    requires -12288 <= ap1 <= 12288
    ensures -(15360 - ap1) <= ap0 <= 15360 - ap1
  {
    var wd1 := if SignsDiffer(p, p0) then -192 else 192;
    var wd2 := Wrap16(a0 * 32640 / 0x8000);
    var sum := Add16(wd1, wd2);
    var wd3 := Sub16(15360, ap1);
    if Abs(sum) > wd3 then (if sum < 0 then -wd3 else wd3) else sum
  }

  /** Zero coefficient `i` after adaptation to the difference signal `dx`. */
  function NewZero(b: int16, delayed: int16, dx: int16): int16 {
    var step := if dx == 0 then 0 else 128;
    Add16(if SignsDiffer(delayed, dx) then -step else step, Wrap16(b * 32640 / 0x8000))
  }

  function NewZeros(b: seq<int16>, d: seq<int16>, dx: int16): (r: seq<int16>)
    requires |b| == 6 && |d| == 7
    ensures |r| == 6
  {
    seq(6, i requires 0 <= i < 6 => NewZero(b[i], d[i + 1], dx))
  }

  /** The delay line moves up by one; `d[0]` is a working copy of the newest entry. */
  function NewDelays(d: seq<int16>, dx: int16): (r: seq<int16>)
    requires |d| == 7
    ensures |r| == 7
  {
    [dx, dx] + d[1..6]
  }

  /** FILTEZ over taps `i` to 5: new coefficients against the doubled new delays. */
  function ZeroSum(b: seq<int16>, d: seq<int16>, i: nat): int
    requires |b| == 6 && |d| == 7 && i <= 6
    decreases 6 - i
  {
    if i == 6 then 0
    else ZeroSum(b, d, i + 1) + Product(b[i], Add16(d[i + 1], d[i + 1])) / 0x8000
  }

  /** The pole section of FILTEP. */
  function PolePrediction(ap0: int16, ap1: int16, r: int16, r1: int16): int16 {
    Add16(Wrap16(Product(ap0, Add16(r, r)) / 0x8000), Wrap16(Product(ap1, Add16(r1, r1)) / 0x8000))
  }

  function Predicted(st: Band, dx: int16): (n: Band)
    requires st.Shaped()
    ensures n.Shaped() && n.nb == st.nb && n.det == st.det
  {
    var r := Add16(st.s, dx);
    var p := Add16(st.sz, dx);
    var ap1 := PoleTwo(st.a0, st.a1, p, st.p0, st.p1);
    var ap0 := PoleOne(st.a0, ap1, p, st.p0);
    var sp := PolePrediction(ap0, ap1, r, st.r);
    var b := NewZeros(st.b, st.d, dx);
    var d := NewDelays(st.d, dx);
    var sz := Saturate(ZeroSum(b, d, 0));
    Band(st.nb, st.det, Add16(sp, sz), sz, r, p, st.p0, ap0, ap1, b, d)
  }

  /** The stability region of section 3.6 of ITU-T G.722. */
  predicate Stable(st: Band) {
    -12288 <= st.a1 <= 12288 && -(15360 - st.a1) <= st.a0 <= 15360 - st.a1
  }

  lemma PredictedIsStable(st: Band, dx: int16)
    requires st.Shaped()
    ensures Stable(Predicted(st, dx))
  {
  }

  /** Inside the stability region no cast of the coefficient update drops a bit:
        each argument already is a 16-bit value. */
  lemma PoleCastsAreLossless(st: Band, p: int16)
    requires Stable(st)
    ensures -0x8000 <= PoleTwoSum(st.a0, st.a1, p, st.p0, st.p1) <= 0x7FFF
    ensures -0x8000 <= st.a0 * 32640 / 0x8000 <= 0x7FFF
  {
  }

  /** Nor does any cast of the pole filter, for every stable pair of coefficients. */
  lemma FilterCastsAreLossless(a0: int16, a1: int16, r: int16, r1: int16)
    requires -12288 <= a1 <= 12288 && -(15360 - a1) <= a0 <= 15360 - a1
    ensures -0x8000 <= Product(a0, Add16(r, r)) / 0x8000 <= 0x7FFF
    ensures -0x8000 <= Product(a1, Add16(r1, r1)) / 0x8000 <= 0x7FFF
  {
    ProductBounds(a0, Add16(r, r), 27648, 0x8000);
    ProductBounds(a1, Add16(r1, r1), 12288, 0x8000);
  }

  /** The six accumulated terms of FILTEZ fit 32 bits with room to spare. */
  lemma {:induction false} ZeroSumFits(b: seq<int16>, d: seq<int16>, i: nat)
    requires |b| == 6 && |d| == 7 && i <= 6
    ensures -0x8000 * (6 - i) <= ZeroSum(b, d, i) <= 0x8000 * (6 - i)
    decreases 6 - i
  {
    if i < 6 {
      ZeroSumFits(b, d, i + 1);
      ProductBounds(b[i], Add16(d[i + 1], d[i + 1]), 0x8000, 0x8000);
    }
  }

  // ---- block 3: scale factors ----

  /** SCALEL and SCALEH: the scale factor of a log scale, with offset 8 or 10. */
  function ScaleSum(offset: nat, nb: int16): int
    requires 0 <= nb
  {
    var mantissa := Ilb(nb / 64 % 32);
    var wd2 := offset - nb / 2048;
    (if wd2 < 0 then Shl(mantissa, -wd2) else Shr(mantissa, wd2)) * 4
  }

  function Scale(offset: nat, nb: int16): int16
    requires 0 <= nb
  {
    Wrap16(ScaleSum(offset, nb))
  }

  /** Upper limit of the log scale: 18432 in the low band, 22528 in the high band. */
  function NbLimit(offset: nat): int16
    requires offset == 8 || offset == 10
  {
    if offset == 8 then 18432 else 22528
  }

  lemma {:induction false} ShrIsMonotone(x: int, y: int, n: nat)
    requires x <= y
    ensures Shr(x, n) <= Shr(y, n)
    decreases n
  {
    if n > 0 { ShrIsMonotone(x / 2, y / 2, n - 1); }
  }

  lemma {:induction false} ShrLowersWithCount(x: int, m: nat, n: nat)
    requires 0 <= x && m <= n
    ensures 0 <= Shr(x, n) <= Shr(x, m)
    decreases m + n
  {
    if m > 0 {
      ShrLowersWithCount(x / 2, m - 1, n - 1);
    } else if n > 0 {
      ShrLowersWithCount(x / 2, 0, n - 1);
    }
  }

  /** Where the log scale sits in its octave table. */
  lemma ScaleParts(offset: nat, nb: int16)
    requires offset == 8 || offset == 10
    requires 0 <= nb <= NbLimit(offset)
    ensures nb / 2048 <= offset + 1
    ensures nb / 2048 == offset + 1 ==> ScaleSum(offset, nb) == 16384
    ensures nb / 2048 <= offset ==> ScaleSum(offset, nb) == 4 * Shr(Ilb(nb / 64 % 32), offset - nb / 2048)
  {
    if nb / 2048 == offset + 1 {
      assert nb / 64 % 32 == 0;
      assert Ilb(0) == 2048;
      assert Shl(2048, 1) == 4096;
    }
  }

  lemma ScaleSumIsMonotone(offset: nat, m: int16, n: int16)
    requires offset == 8 || offset == 10
    requires 0 <= m <= n <= NbLimit(offset)
    ensures ScaleSum(offset, m) <= ScaleSum(offset, n)
  {
    hide ScaleSum, Ilb, Shl;
    ScaleRange(offset, m);
    ScaleParts(offset, m);
    ScaleParts(offset, n);
    OctavesInOrder(m, n);
    var x, y := Ilb(m / 64 % 32), Ilb(n / 64 % 32);
    if n / 2048 <= offset {
      if m / 2048 == n / 2048 { IlbIsIncreasing(m / 64 % 32, n / 64 % 32); }
      OctavesJoin(offset - m / 2048, x, offset - n / 2048, y);
    }
  }

  lemma OctavesInOrder(m: int16, n: int16)
    requires 0 <= m <= n
    ensures m / 2048 <= n / 2048
    ensures m / 2048 == n / 2048 ==> m / 64 % 32 <= n / 64 % 32
  {
    var a, b := m / 64, n / 64;
    assert m / 2048 == a / 32 && n / 2048 == b / 32;
  }

  /** The top of one octave lies below the bottom of the next. */
  lemma OctavesJoin(s: nat, x: int, t: nat, y: int)
    requires t <= s && 2048 <= x <= 4096 && 2048 <= y <= 4096
    requires s == t ==> x <= y
    ensures Shr(x, s) <= Shr(y, t)
  {
    if s == t {
      ShrIsMonotone(x, y, s);
    } else {
      ShrIsMonotone(x, 4096, s);
      assert Shr(4096, s) == Shr(2048, s - 1);
      ShrLowersWithCount(2048, t, s - 1);
      ShrIsMonotone(2048, y, t);
    }
  }

  /** The scale factor grows with the log scale, keeps to a fixed range, and its
      cast to 16 bits is lossless. */
  lemma ScaleIsMonotone(offset: nat, m: int16, n: int16)
    requires offset == 8 || offset == 10
    requires 0 <= m <= n <= NbLimit(offset)
    ensures Scale(offset, m) <= Scale(offset, n)
    ensures Scale(offset, m) == ScaleSum(offset, m)
    ensures (if offset == 8 then 32 else 8) <= Scale(offset, m) <= 16384
  {
    hide ScaleSum;
    ScaleSumIsMonotone(offset, m, n);
    ScaleRange(offset, m);
    ScaleRange(offset, n);
  }

  lemma ScaleRange(offset: nat, nb: int16)
    requires offset == 8 || offset == 10
    requires 0 <= nb <= NbLimit(offset)
    ensures (if offset == 8 then 32 else 8) <= ScaleSum(offset, nb) <= 16384
  {
    ScaleParts(offset, nb);
    var q := nb / 2048;
    if q <= offset {
      var x := Ilb(nb / 64 % 32);
      ShrIsMonotone(2048, x, offset - q);
      ShrLowersWithCount(2048, offset - q, offset);
      ShrLowersWithCount(x, 0, offset - q);
      assert Shr(2048, 8) == 8 && Shr(2048, 10) == 2;
    }
  }

  /** 2048 steps of the log scale double the scale factor, but for the bits shifted out. */
  lemma ScaleDoubles(offset: nat, nb: int16)
    requires offset == 8 || offset == 10
    requires 0 <= nb && nb + 2048 <= NbLimit(offset)
    ensures 2 * ScaleSum(offset, nb) <= ScaleSum(offset, nb + 2048) <= 2 * ScaleSum(offset, nb) + 4
  {
    hide ScaleSum, Ilb, Shr;
    ScaleParts(offset, nb);
    ScaleParts(offset, nb + 2048);
    OctaveUp(offset, nb);
    if nb / 2048 + 1 <= offset {
      ShrHalves(Ilb(nb / 64 % 32), offset - nb / 2048);
    } else {
      TopOctave();
    }
  }

  lemma OctaveUp(offset: nat, nb: int)
    requires offset == 8 || offset == 10
    requires 0 <= nb && nb + 2048 <= NbLimit(offset)
    ensures (nb + 2048) / 2048 == nb / 2048 + 1 && (nb + 2048) / 64 % 32 == nb / 64 % 32
    ensures nb / 2048 <= offset && (nb / 2048 == offset ==> nb / 64 % 32 == 0)
  {
    var k := nb / 64;
    assert (nb + 2048) / 64 == k + 32 && nb / 2048 == k / 32;
  }

  lemma TopOctave()
    ensures Ilb(0) == 2048 && Shr(2048, 0) == 2048
  {
  }

  lemma {:induction false} ShrHalves(x: int, n: nat)
    requires n > 0
    ensures 2 * Shr(x, n) <= Shr(x, n - 1) <= 2 * Shr(x, n) + 1
    decreases n
  {
    if n > 1 { ShrHalves(x / 2, n - 1); }
  }

  /** Without a step the log scale leaks a 128th, rounded up; and a larger step never leads
      to a smaller scale. */
  lemma LogScaleLeaks(offset: nat, nb: int16, step: int16, larger: int16)
    requires offset == 8 || offset == 10
    requires 0 <= nb <= NbLimit(offset) && step <= larger
    ensures DecoderLogScale(offset, nb, 0) == nb - (nb + 127) / 128
    ensures DecoderLogScale(offset, nb, step) <= DecoderLogScale(offset, nb, larger)
  {
  }

  /** The encoder stores the new log scale in 16 bits and then limits it. */
  function EncoderLogScale(offset: nat, nb: int16, step: int16): (r: int16)
    requires offset == 8 || offset == 10
    ensures 0 <= r <= NbLimit(offset)
  {
    var stored := Wrap16(nb * 127 / 128 + step);
    if stored < 0 then 0 else if stored > NbLimit(offset) then NbLimit(offset) else stored
  }

  /** The decoder limits the new log scale and then stores it in 16 bits. */
  function DecoderLogScale(offset: nat, nb: int16, step: int16): (r: int16)
    requires offset == 8 || offset == 10
    ensures 0 <= r <= NbLimit(offset)
  {
    var wd1 := nb * 127 / 128 + step;
    Wrap16(if wd1 < 0 then 0 else if wd1 > NbLimit(offset) then NbLimit(offset) else wd1)
  }

  /** The two orders agree exactly as long as the stored sum does not wrap; every
      legal step from a legal log scale is such a sum. */
  lemma LogScalesAgree(offset: nat, nb: int16, step: int16)
    requires offset == 8 || offset == 10
    ensures EncoderLogScale(offset, nb, step) == DecoderLogScale(offset, nb, step)
       <==> -0x8000 <= nb * 127 / 128 + step <= 0x7FFF
    ensures 0 <= nb <= NbLimit(offset) && -214 <= step <= 3042
        ==> EncoderLogScale(offset, nb, step) == DecoderLogScale(offset, nb, step)
  {
  }

  /** The invariant of a sub-band: a stable predictor, a log scale in range, and
      the scale factor that belongs to it. */
  predicate Sound(offset: nat, st: Band)
    requires offset == 8 || offset == 10
  {
    st.Shaped() && Stable(st) && 0 <= st.nb <= NbLimit(offset) && st.det == Scale(offset, st.nb)
  }

  lemma SoundDet(offset: nat, st: Band)
    requires offset == 8 || offset == 10
    requires Sound(offset, st)
    ensures (if offset == 8 then 32 else 8) <= st.det <= 16384
  {
    ScaleIsMonotone(offset, st.nb, st.nb);
  }

  const SILENT_LOW := Band(0, 32, 0, 0, 0, 0, 0, 0, 0, [0, 0, 0, 0, 0, 0], [0, 0, 0, 0, 0, 0, 0])
  const SILENT_HIGH := SILENT_LOW.(det := 8)

  lemma InitialBandsAreSound()
    ensures Sound(8, SILENT_LOW) && Sound(10, SILENT_HIGH)
  {
    hide Scale;
    ScaleOfSilence();
  }

  lemma ScaleOfSilence()
    ensures Scale(8, 0) == 32 && Scale(10, 0) == 8
  {
    assert Ilb(0) == 2048;
    ScaleParts(8, 0);
    ScaleParts(10, 0);
    assert Shr(2048, 8) == 8 && Shr(2048, 10) == 2;
    hide ScaleSum, Shr, Ilb;
  }

  lemma TapFacts(b: seq<int16>, d: seq<int16>, dx: int16, i: nat)
    requires |b| == 6 && |d| == 7 && i < 6
    ensures NewDelays(d, dx)[i + 1] == d[0 := dx][i]
    ensures NewDelays(d, dx)[0] == dx
    ensures NewZeros(b, d, dx)[i] == NewZero(b[i], d[i + 1], dx)
  {
  }

  /** A g722_band_t, updated in place.  The two-element arrays p and a are held as
      pairs of fields. */
  class BandState {
    var nb: int16
    var det: int16
    var s: int16
    var sz: int16
    var r: int16
    var p0: int16
    var p1: int16
    var a0: int16
    var a1: int16
    const b: array<int16>
    const d: array<int16>

    predicate Valid() {
      b.Length == 6 && d.Length == 7 && b != d
    }

    ghost const Repr: set<object> := {this, b, d}

    ghost function Snapshot(): (st: Band)
      requires Valid()
      reads this, b, d
      ensures st.Shaped()
    {
      Band(nb, det, s, sz, r, p0, p1, a0, a1, b[..], d[..])
    }

    /** memset, then the initial scale factor. */
    constructor (det0: int16)
      ensures Valid() && fresh(Repr) && Snapshot() == SILENT_LOW.(det := det0)
    {
      nb, det, s, sz, r, p0, p1, a0, a1 := 0, det0, 0, 0, 0, 0, 0, 0, 0;
      b := new int16[6](_ => 0);
      d := new int16[7](_ => 0);
      new;
      assert b[..] == [0, 0, 0, 0, 0, 0] && d[..] == [0, 0, 0, 0, 0, 0, 0];
    }

    /** block4. */
    method Block4(dx: int16)
      requires Valid()
      modifies Repr
      ensures Snapshot() == Predicted(old(Snapshot()), dx)
    {
      hide NewZeros, NewDelays, ZeroSum, PoleOne, PoleTwo, PolePrediction;
      var r0 := Add16(s, dx);
      var p := Add16(sz, dx);
      var ap1, ap0 := UpdatePoles(p);
      var sp := FilterPoles(ap0, ap1, r0);
      r := r0;
      a1 := ap1;
      a0 := ap0;
      p1 := p0;
      p0 := p;
      var sum := UpdateZeros(dx);
      sz := Saturate(sum);
      s := Add16(sp, sz);
    }

    /** UPPOL2 and UPPOL1. */
    method UpdatePoles(p: int16) returns (ap1: int16, ap0: int16)
      requires Valid()
      ensures ap1 == PoleTwo(a0, a1, p, p0, p1)
      ensures ap0 == PoleOne(a0, ap1, p, p0)
    {
      var wd1: int := Saturate(a0 * 4);
      var wd32: int := if SignsDiffer(p, p0) then wd1 else -wd1;
      if wd32 > 32767 { wd32 := 32767; }
      var wd3: int := Wrap16((if SignsDiffer(p, p1) then -128 else 128) + wd32 / 128 + a1 * 32512 / 0x8000);
      if Abs(wd3) > 12288 { wd3 := if wd3 < 0 then -12288 else 12288; }
      ap1 := wd3;
      wd1 := if SignsDiffer(p, p0) then -192 else 192;
      var wd2 := Wrap16(a0 * 32640 / 0x8000);
      ap0 := Add16(wd1, wd2);
      wd3 := Sub16(15360, ap1);
      if Abs(ap0) > wd3 { ap0 := if ap0 < 0 then -wd3 else wd3; }
    }

    /** FILTEP. */
    method FilterPoles(ap0: int16, ap1: int16, r0: int16) returns (sp: int16)
      ensures sp == PolePrediction(ap0, ap1, r0, r)
    {
      var wd1 := Add16(r0, r0);
      wd1 := Wrap16(Product(ap0, wd1) / 0x8000);
      var wd2 := Add16(r, r);
      wd2 := Wrap16(Product(ap1, wd2) / 0x8000);
      sp := Add16(wd1, wd2);
    }

    /** UPZERO, DELAYA and FILTEZ in one descending loop: each delay is read as the
        old entry above before the entry below is moved up into its place. */
    method UpdateZeros(dx: int16) returns (sum: int)
      requires Valid()
      modifies b, d
      ensures b[..] == NewZeros(old(b[..]), old(d[..]), dx)
      ensures d[..] == NewDelays(old(d[..]), dx)
      ensures sum == ZeroSum(b[..], d[..], 0)
    {
      ghost var b0, d0 := b[..], d[..];
      ghost var nb, nd := NewZeros(b0, d0, dx), NewDelays(d0, dx);
      d[0] := dx;
      sum := 0;
      ghost var e0 := d[..];
      assert e0 == d0[0 := dx];
      for i := 6 downto 0
        invariant b[..] == b0[..i] + nb[i..]
        invariant d[..] == e0[..i + 1] + nd[i + 1..]
        invariant sum == ZeroSum(nb, nd, i)
      {
        TapFacts(b0, d0, dx, i);
        var term := UpdateTap(i, dx);
        assert b[..] == b0[..i] + nb[i..];
        assert d[..] == e0[..i + 1] + nd[i + 1..];
        sum := sum + term;
      }
    }

    method UpdateTap(i: nat, dx: int16) returns (term: int)
      requires Valid() && i < 6
      modifies b, d
      ensures b[..] == old(b[..])[i := NewZero(old(b[i]), old(d[i + 1]), dx)]
      ensures d[..] == old(d[..])[i + 1 := old(d[i])]
      ensures term == Product(b[i], Add16(old(d[i]), old(d[i]))) / 0x8000
    {
      var wd1: int := if dx == 0 then 0 else 128;
      var wd2: int := if SignsDiffer(d[i + 1], dx) then -wd1 else wd1;
      var wd3: int := Wrap16(b[i] as int * 32640 / 0x8000);
      b[i] := Add16(wd2, wd3);
      wd3 := Add16(d[i], d[i]);
      term := Product(b[i], wd3) / 0x8000;
      d[i + 1] := d[i];
    }
  }
}
