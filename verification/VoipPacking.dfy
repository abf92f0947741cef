/** The 33-byte VoIP packing of a frame (gsm0610_pack_voip, gsm0610_unpack_voip;
    section 4.5.8.1 of RFC 3551).  The block is one big-endian number: its base-256
    digits are the bytes, and its digits in the radices of the field widths are a
    signature nibble and the 76 parameters, most significant first.

    Masks are remainders, and the masked operands of each C `|` share no bit, so
    that `|` is a sum. */
module VoipPacking {
  import opened Saturated
  import opened LogAreaRatio
  import opened BitStreams
  import opened GsmFrame

  const GSM0610_MAGIC: nat := 0xD

  // ---- numbers in mixed radices ----

  /** A digit and the number of values it can take. */
  datatype Digit = Digit(value: int, radix: nat) {
    predicate InRange() {
      0 <= value < radix
    }
  }

  function Number(ds: seq<Digit>): int {
    if ds == [] then 0
    else Product(Number(ds[..|ds| - 1]), ds[|ds| - 1].radix) + ds[|ds| - 1].value
  }

  lemma NumberSnoc(ds: seq<Digit>, value: int, radix: nat)
    ensures Number(ds + [Digit(value, radix)]) == Number(ds) * radix + value
  {
    var es := ds + [Digit(value, radix)];
    assert es[..|es| - 1] == ds;
    ProductIsTimes(Number(ds), radix);
  }

  predicate SameRadices(ds: seq<Digit>, es: seq<Digit>) {
    |ds| == |es| && forall i :: 0 <= i < |ds| ==> ds[i].radix == es[i].radix
  }

  predicate AllInRange(ds: seq<Digit>) {
    forall i :: 0 <= i < |ds| ==> ds[i].InRange()
  }

  /** Digits are determined by the number. */
  lemma {:induction false} DigitsAreUnique(ds: seq<Digit>, es: seq<Digit>)
    requires SameRadices(ds, es) && AllInRange(ds) && AllInRange(es) && Number(ds) == Number(es)
    ensures ds == es
  {
    if ds != [] {
      var n := |ds| - 1;
      var r := ds[n].radix;
      ProductIsTimes(Number(ds[..n]), r);
      ProductIsTimes(Number(es[..n]), r);
      SameQuotient(Number(ds[..n]), Number(es[..n]), r, ds[n].value, es[n].value);
      DigitsAreUnique(ds[..n], es[..n]);
      assert ds == ds[..n] + [ds[n]] && es == es[..n] + [es[n]];
    }
  }

  lemma SameQuotient(a: int, b: int, r: nat, d: int, e: int)
    requires 0 <= d < r && 0 <= e < r && a * r + d == b * r + e
    ensures a == b && d == e
  {
    if a < b {
      MulGrows(a + 1, b, r);
    } else if b < a {
      MulGrows(b + 1, a, r);
    }
  }

  lemma MulGrows(a: int, b: int, r: nat)
    requires a <= b
    ensures (a - 1) * r + r <= b * r
  {
    assert 0 <= (b - a) * r;
  }

  // ---- the digits of a block ----

  function Bytes(c: seq<uint8>): (r: seq<Digit>)
    ensures |r| == |c|
    ensures forall i :: 0 <= i < |c| ==> r[i] == Digit(c[i], 256)
  {
    seq(|c|, i requires 0 <= i < |c| => Digit(c[i], 256))
  }

  function LarDigits(a: seq<int16>): (r: seq<Digit>)
    requires |a| == 8
    ensures |r| == 8
  {
    [Digit(a[0], 64), Digit(a[1], 64), Digit(a[2], 32), Digit(a[3], 32),
     Digit(a[4], 16), Digit(a[5], 16), Digit(a[6], 8), Digit(a[7], 8)]
  }

  function SampleDigits(x: seq<int16>): (r: seq<Digit>)
    ensures |r| == |x|
    ensures forall i :: 0 <= i < |x| ==> r[i] == Digit(x[i], 8)
  {
    seq(|x|, i requires 0 <= i < |x| => Digit(x[i], 8))
  }

  function SubDigits(s: SubFrame): (r: seq<Digit>)
    ensures |r| == 4 + |s.xMc|
  {
    [Digit(s.Nc, 128), Digit(s.bc, 4), Digit(s.Mc, 4), Digit(s.xmaxc, 64)] + SampleDigits(s.xMc)
  }

  /** The first `n` sub-frames. */
  function SubsDigits(sub: seq<SubFrame>, n: nat): (r: seq<Digit>)
    requires n <= |sub|
  {
    if n == 0 then [] else SubsDigits(sub, n - 1) + SubDigits(sub[n - 1])
  }

  /** Signature nibble and parameters, in the order of transmission. */
  function FrameDigits(magic: int, f: Frame, n: nat): seq<Digit>
    requires |f.LARc| == 8 && n <= |f.sub|
  {
    [Digit(magic, 16)] + LarDigits(f.LARc) + SubsDigits(f.sub, n)
  }

  // ---- the same digits appended by Horner's rule ----

  lemma {:induction false} AppendBytes(ds: seq<Digit>, c: seq<uint8>, n: nat)
    requires n < |c|
    ensures Number(ds + Bytes(c[..n + 1])) == Number(ds + Bytes(c[..n])) * 256 + c[n]
  {
    NumberSnoc(ds + Bytes(c[..n]), c[n], 256);
    assert ds + Bytes(c[..n + 1]) == (ds + Bytes(c[..n])) + [Digit(c[n], 256)];
  }

  function SevenBytes(p: int, c: seq<int>): int
    requires |c| == 7
  {
    (((((((p * 256 + c[0]) * 256 + c[1]) * 256 + c[2]) * 256 + c[3]) * 256 + c[4]) * 256 + c[5]) * 256) + c[6]
  }

  lemma SevenBytesAppended(ds: seq<Digit>, c: seq<uint8>)
    requires |c| == 7
    ensures Number(ds + Bytes(c)) == SevenBytes(Number(ds), c)
  {
    hide Number, Bytes;
    assert ds + Bytes(c[..0]) == ds;
    AppendBytes(ds, c, 0);
    AppendBytes(ds, c, 1);
    AppendBytes(ds, c, 2);
    AppendBytes(ds, c, 3);
    AppendBytes(ds, c, 4);
    AppendBytes(ds, c, 5);
    AppendBytes(ds, c, 6);
    assert c[..7] == c;
  }

  function ThirteenSamples(p: int, x: seq<int>): int
    requires |x| == 13
  {
    var five := ((((p * 8 + x[0]) * 8 + x[1]) * 8 + x[2]) * 8 + x[3]) * 8 + x[4];
    var ten := ((((five * 8 + x[5]) * 8 + x[6]) * 8 + x[7]) * 8 + x[8]) * 8 + x[9];
    ((ten * 8 + x[10]) * 8 + x[11]) * 8 + x[12]
  }

  lemma AppendSample(ds: seq<Digit>, x: seq<int16>, n: nat)
    requires n < |x|
    ensures Number(ds + SampleDigits(x[..n + 1])) == Number(ds + SampleDigits(x[..n])) * 8 + x[n]
  {
    NumberSnoc(ds + SampleDigits(x[..n]), x[n], 8);
    assert ds + SampleDigits(x[..n + 1]) == (ds + SampleDigits(x[..n])) + [Digit(x[n], 8)];
  }

  lemma SamplesAppended(ds: seq<Digit>, x: seq<int16>)
    requires |x| == 13
    ensures Number(ds + SampleDigits(x)) == ThirteenSamples(Number(ds), x)
  {
    hide Number, SampleDigits;
    assert ds + SampleDigits(x[..0]) == ds;
    AppendSample(ds, x, 0);
    AppendSample(ds, x, 1);
    AppendSample(ds, x, 2);
    AppendSample(ds, x, 3);
    AppendSample(ds, x, 4);
    AppendSample(ds, x, 5);
    AppendSample(ds, x, 6);
    AppendSample(ds, x, 7);
    AppendSample(ds, x, 8);
    AppendSample(ds, x, 9);
    AppendSample(ds, x, 10);
    AppendSample(ds, x, 11);
    AppendSample(ds, x, 12);
    assert x[..13] == x;
  }

  function SubNumber(p: int, s: SubFrame): int
    requires |s.xMc| == 13
  {
    ThirteenSamples((((p * 128 + s.Nc) * 4 + s.bc) * 4 + s.Mc) * 64 + s.xmaxc, s.xMc)
  }

  lemma SubAppended(ds: seq<Digit>, s: SubFrame)
    requires |s.xMc| == 13
    ensures Number(ds + SubDigits(s)) == SubNumber(Number(ds), s)
  {
    hide Number, SampleDigits, ThirteenSamples;
    var d1 := ds + [Digit(s.Nc, 128)];
    var d2 := d1 + [Digit(s.bc, 4)];
    var d3 := d2 + [Digit(s.Mc, 4)];
    var d4 := d3 + [Digit(s.xmaxc, 64)];
    NumberSnoc(ds, s.Nc, 128);
    NumberSnoc(d1, s.bc, 4);
    NumberSnoc(d2, s.Mc, 4);
    NumberSnoc(d3, s.xmaxc, 64);
    SamplesAppended(d4, s.xMc);
    assert ds + SubDigits(s) == d4 + SampleDigits(s.xMc);
  }

  // ---- bit fields ----

  /** The `count`-valued field of `v` that starts at the bit worth `unit`: the C
      expression `(v >> n) & mask` with unit 2^n and count mask + 1. */
  function Cut(v: int, unit: nat, count: nat): (r: int)
    requires unit > 0 && count > 0
    ensures 0 <= r < count
  {
    v / unit % count
  }

  lemma WholeField(v: int, count: nat)
    requires 0 <= v < count
    ensures Cut(v, 1, count) == v
  {
    assert v / 1 == v;
  }

  /** A parameter that straddles two bytes. */
  lemma TwoFields(v: int, unit: nat, count: nat)
    requires unit == 2 || unit == 4
    requires count == 2 || count == 4 || count == 8 || count == (if unit == 2 then 32 else 16)
    requires 0 <= v < unit * count
    ensures v == Cut(v, unit, count) * unit + Cut(v, 1, unit)
  {
    assert v / 1 == v;
  }

  /** Every way in which a byte is cut into fields. */
  lemma ByteFields(c: uint8)
    ensures c == Cut(c, 16, 16) * 16 + Cut(c, 1, 16)
    ensures c == Cut(c, 64, 4) * 64 + Cut(c, 1, 64)
    ensures c == Cut(c, 8, 32) * 8 + Cut(c, 1, 8)
    ensures c == Cut(c, 64, 4) * 64 + Cut(c, 4, 16) * 4 + Cut(c, 1, 4)
    ensures c == Cut(c, 64, 4) * 64 + Cut(c, 8, 8) * 8 + Cut(c, 1, 8)
    ensures c == Cut(c, 2, 128) * 2 + Cut(c, 1, 2)
    ensures c == Cut(c, 128, 2) * 128 + Cut(c, 32, 4) * 32 + Cut(c, 1, 32)
    ensures c == Cut(c, 128, 2) * 128 + Cut(c, 16, 8) * 16 + Cut(c, 2, 8) * 2 + Cut(c, 1, 2)
    ensures c == Cut(c, 32, 8) * 32 + Cut(c, 4, 8) * 4 + Cut(c, 1, 4)
  {
    hide Cut;
    LowestField(c);
    LowestFieldOfFour(c);
    Split4At64(c);
    Split8At64(c);
    Split4At32(c);
    Split32At128(c);
    Split16At128(c);
    Split2At16(c);
  }

  /** A byte is its lowest field and the rest. */
  lemma LowestField(c: uint8)
    ensures c == Cut(c, 2, 128) * 2 + Cut(c, 1, 2) && c == Cut(c, 8, 32) * 8 + Cut(c, 1, 8)
    ensures c == Cut(c, 32, 8) * 32 + Cut(c, 1, 32)
  {
    assert c / 1 == c;
  }

  lemma LowestFieldOfFour(c: uint8)
    ensures c == Cut(c, 4, 64) * 4 + Cut(c, 1, 4) && c == Cut(c, 16, 16) * 16 + Cut(c, 1, 16)
    ensures c == Cut(c, 64, 4) * 64 + Cut(c, 1, 64)
  {
    assert c / 1 == c;
  }

  // The rest of a byte, cut again.

  lemma Split4At64(c: uint8)
    ensures Cut(c, 4, 64) == Cut(c, 64, 4) * 16 + Cut(c, 4, 16)
  {
    assert c / 64 == c / 4 / 16;
  }

  lemma Split8At64(c: uint8)
    ensures Cut(c, 8, 32) == Cut(c, 64, 4) * 8 + Cut(c, 8, 8)
  {
    assert c / 64 == c / 8 / 8;
  }

  lemma Split4At32(c: uint8)
    ensures Cut(c, 4, 64) == Cut(c, 32, 8) * 8 + Cut(c, 4, 8)
  {
    assert c / 32 == c / 4 / 8;
  }

  lemma Split32At128(c: uint8)
    ensures Cut(c, 32, 8) == Cut(c, 128, 2) * 4 + Cut(c, 32, 4)
  {
    assert c / 128 == c / 32 / 4;
  }

  lemma Split16At128(c: uint8)
    ensures Cut(c, 16, 16) == Cut(c, 128, 2) * 8 + Cut(c, 16, 8)
  {
    assert c / 128 == c / 16 / 8;
  }

  lemma Split2At16(c: uint8)
    ensures Cut(c, 2, 128) == Cut(c, 16, 16) * 8 + Cut(c, 2, 8)
  {
    assert c / 16 == c / 2 / 8;
  }

  // ---- the seven bytes of a sub-frame ----

  function SubBytes(s: SubFrame): (c: seq<uint8>)
    requires |s.xMc| == 13
    ensures |c| == 7
  {
    hide Cut;
    var x := s.xMc;
    [Cut(s.Nc, 1, 128) * 2 + Cut(s.bc, 2, 2),
     Cut(s.bc, 1, 2) * 128 + Cut(s.Mc, 1, 4) * 32 + Cut(s.xmaxc, 2, 32),
     Cut(s.xmaxc, 1, 2) * 128 + Cut(x[0], 1, 8) * 16 + Cut(x[1], 1, 8) * 2 + Cut(x[2], 4, 2),
     Cut(x[2], 1, 4) * 64 + Cut(x[3], 1, 8) * 8 + Cut(x[4], 1, 8),
     Cut(x[5], 1, 8) * 32 + Cut(x[6], 1, 8) * 4 + Cut(x[7], 2, 4),
     Cut(x[7], 1, 2) * 128 + Cut(x[8], 1, 8) * 16 + Cut(x[9], 1, 8) * 2 + Cut(x[10], 4, 2),
     Cut(x[10], 1, 4) * 64 + Cut(x[11], 1, 8) * 8 + Cut(x[12], 1, 8)]
  }

  lemma SubBytesNumber(p: int, s: SubFrame)
    requires s.InRange()
    ensures SevenBytes(p, SubBytes(s)) == SubNumber(p, s)
  {
    hide Cut;
    var x := s.xMc;
    WholeField(s.Nc, 128);
    TwoFields(s.bc, 2, 2);
    WholeField(s.Mc, 4);
    TwoFields(s.xmaxc, 2, 32);
    WholeField(x[0], 8);
    WholeField(x[1], 8);
    TwoFields(x[2], 4, 2);
    WholeField(x[3], 8);
    WholeField(x[4], 8);
    WholeField(x[5], 8);
    WholeField(x[6], 8);
    TwoFields(x[7], 2, 4);
    WholeField(x[8], 8);
    WholeField(x[9], 8);
    TwoFields(x[10], 4, 2);
    WholeField(x[11], 8);
    WholeField(x[12], 8);
  }

  function SubFrom(c: seq<uint8>): (s: SubFrame)
    requires |c| == 7
    ensures s.InRange()
  {
    hide Cut;
    SubFrame(Cut(c[0], 2, 128),
             Cut(c[0], 1, 2) * 2 + Cut(c[1], 128, 2),
             Cut(c[1], 32, 4),
             Cut(c[1], 1, 32) * 2 + Cut(c[2], 128, 2),
             [Cut(c[2], 16, 8), Cut(c[2], 2, 8), Cut(c[2], 1, 2) * 4 + Cut(c[3], 64, 4),
              Cut(c[3], 8, 8), Cut(c[3], 1, 8),
              Cut(c[4], 32, 8), Cut(c[4], 4, 8), Cut(c[4], 1, 4) * 2 + Cut(c[5], 128, 2),
              Cut(c[5], 16, 8), Cut(c[5], 2, 8), Cut(c[5], 1, 2) * 4 + Cut(c[6], 64, 4),
              Cut(c[6], 8, 8), Cut(c[6], 1, 8)])
  }

  lemma SubFromNumber(p: int, c: seq<uint8>)
    requires |c| == 7
    ensures SubNumber(p, SubFrom(c)) == SevenBytes(p, c)
  {
    hide Cut;
    ByteFields(c[0]);
    ByteFields(c[1]);
    ByteFields(c[2]);
    ByteFields(c[3]);
    ByteFields(c[4]);
    ByteFields(c[5]);
    ByteFields(c[6]);
  }

  // ---- the five bytes of signature and log-area ratios ----

  function FiveBytes(p: int, c: seq<int>): int
    requires |c| == 5
  {
    ((((p * 256 + c[0]) * 256 + c[1]) * 256 + c[2]) * 256 + c[3]) * 256 + c[4]
  }

  lemma FiveBytesAppended(ds: seq<Digit>, c: seq<uint8>)
    requires |c| == 5
    ensures Number(ds + Bytes(c)) == FiveBytes(Number(ds), c)
  {
    hide Number, Bytes;
    assert ds + Bytes(c[..0]) == ds;
    AppendBytes(ds, c, 0);
    AppendBytes(ds, c, 1);
    AppendBytes(ds, c, 2);
    AppendBytes(ds, c, 3);
    AppendBytes(ds, c, 4);
    assert c[..5] == c;
  }

  function LarNumber(p: int, a: seq<int16>): int
    requires |a| == 8
  {
    ((((((((p * 64 + a[0]) * 64 + a[1]) * 32 + a[2]) * 32 + a[3]) * 16 + a[4]) * 16 + a[5]) * 8) + a[6]) * 8 + a[7]
  }

  lemma LarAppended(ds: seq<Digit>, a: seq<int16>)
    requires |a| == 8
    ensures Number(ds + LarDigits(a)) == LarNumber(Number(ds), a)
  {
    hide Number;
    var d1 := ds + [Digit(a[0], 64)];
    var d2 := d1 + [Digit(a[1], 64)];
    var d3 := d2 + [Digit(a[2], 32)];
    var d4 := d3 + [Digit(a[3], 32)];
    var d5 := d4 + [Digit(a[4], 16)];
    var d6 := d5 + [Digit(a[5], 16)];
    var d7 := d6 + [Digit(a[6], 8)];
    NumberSnoc(ds, a[0], 64);
    NumberSnoc(d1, a[1], 64);
    NumberSnoc(d2, a[2], 32);
    NumberSnoc(d3, a[3], 32);
    NumberSnoc(d4, a[4], 16);
    NumberSnoc(d5, a[5], 16);
    NumberSnoc(d6, a[6], 8);
    NumberSnoc(d7, a[7], 8);
    assert ds + LarDigits(a) == d7 + [Digit(a[7], 8)];
  }

  function LarBytes(a: seq<int16>): (c: seq<uint8>)
    requires |a| == 8
    ensures |c| == 5
  {
    hide Cut;
    [GSM0610_MAGIC * 16 + Cut(a[0], 4, 16),
     Cut(a[0], 1, 4) * 64 + Cut(a[1], 1, 64),
     Cut(a[2], 1, 32) * 8 + Cut(a[3], 4, 8),
     Cut(a[3], 1, 4) * 64 + Cut(a[4], 1, 16) * 4 + Cut(a[5], 4, 4),
     Cut(a[5], 1, 4) * 64 + Cut(a[6], 1, 8) * 8 + Cut(a[7], 1, 8)]
  }

  lemma LarBytesNumber(p: int, a: seq<int16>)
    requires LarcInRange(a)
    ensures FiveBytes(p, LarBytes(a)) == LarNumber(p * 16 + GSM0610_MAGIC, a)
  {
    hide Cut;
    TwoFields(a[0], 4, 16);
    WholeField(a[1], 64);
    WholeField(a[2], 32);
    TwoFields(a[3], 4, 8);
    WholeField(a[4], 16);
    TwoFields(a[5], 4, 4);
    WholeField(a[6], 8);
    WholeField(a[7], 8);
  }

  function LarFrom(c: seq<uint8>): (a: seq<int16>)
    requires |c| == 5
    ensures LarcInRange(a)
  {
    hide Cut;
    [Cut(c[0], 1, 16) * 4 + Cut(c[1], 64, 4),
     Cut(c[1], 1, 64),
     Cut(c[2], 8, 32),
     Cut(c[2], 1, 8) * 4 + Cut(c[3], 64, 4),
     Cut(c[3], 4, 16),
     Cut(c[3], 1, 4) * 4 + Cut(c[4], 64, 4),
     Cut(c[4], 8, 8),
     Cut(c[4], 1, 8)]
  }

  lemma LarFromNumber(p: int, c: seq<uint8>)
    requires |c| == 5
    ensures LarNumber(p * 16 + Cut(c[0], 16, 16), LarFrom(c)) == FiveBytes(p, c)
  {
    hide Cut;
    ByteFields(c[0]);
    ByteFields(c[1]);
    ByteFields(c[2]);
    ByteFields(c[3]);
    ByteFields(c[4]);
  }

  // ---- whole blocks ----

  function SubsBytes(sub: seq<SubFrame>, n: nat): (c: seq<uint8>)
    requires n <= |sub| && forall k :: 0 <= k < n ==> |sub[k].xMc| == 13
    ensures |c| == 7 * n
  {
    if n == 0 then [] else SubsBytes(sub, n - 1) + SubBytes(sub[n - 1])
  }

  function PackVoip(f: Frame): (c: seq<uint8>)
    requires f.Complete()
    ensures |c| == 33
  {
    LarBytes(f.LARc) + SubsBytes(f.sub, 4)
  }

  function SubsFrom(c: seq<uint8>, n: nat): (sub: seq<SubFrame>)
    requires |c| == 33 && n <= 4
    ensures |sub| == n && forall k :: 0 <= k < n ==> sub[k].InRange()
  {
    if n == 0 then [] else SubsFrom(c, n - 1) + [SubFrom(c[5 + 7 * (n - 1)..5 + 7 * n])]
  }

  function UnpackVoip(c: seq<uint8>): (f: Frame)
    requires |c| == 33
    ensures f.InRange()
  {
    Frame(LarFrom(c[..5]), SubsFrom(c, 4))
  }

  lemma BytesConcat(a: seq<uint8>, b: seq<uint8>)
    ensures Bytes(a + b) == Bytes(a) + Bytes(b)
  {
  }

  lemma PackedSub(ds: seq<Digit>, c: seq<uint8>, s: SubFrame)
    requires s.InRange()
    requires Number(Bytes(c)) == Number(ds)
    ensures Number(Bytes(c + SubBytes(s))) == Number(ds + SubDigits(s))
  {
    hide Number, Bytes, SubBytes, SubDigits, SevenBytes, SubNumber;
    BytesConcat(c, SubBytes(s));
    SevenBytesAppended(Bytes(c), SubBytes(s));
    SubBytesNumber(Number(ds), s);
    SubAppended(ds, s);
  }

  lemma {:induction false} PackedSubs(ds: seq<Digit>, c: seq<uint8>, sub: seq<SubFrame>, n: nat)
    requires n <= |sub| && forall k :: 0 <= k < n ==> sub[k].InRange() && |sub[k].xMc| == 13
    requires Number(Bytes(c)) == Number(ds)
    ensures Number(Bytes(c + SubsBytes(sub, n))) == Number(ds + SubsDigits(sub, n))
  {
    hide Number, Bytes, SubBytes, SubDigits, SubFrame.InRange;
    if n == 0 {
      assert c + SubsBytes(sub, 0) == c && ds + SubsDigits(sub, 0) == ds;
    } else {
      PackedSubs(ds, c, sub, n - 1);
      PackedSub(ds + SubsDigits(sub, n - 1), c + SubsBytes(sub, n - 1), sub[n - 1]);
      Associate(c, SubsBytes(sub, n - 1), SubBytes(sub[n - 1]));
      Associate(ds, SubsDigits(sub, n - 1), SubDigits(sub[n - 1]));
    }
  }

  /** The block is the number whose digits are the signature and the parameters. */
  lemma PackedNumber(f: Frame)
    requires f.InRange()
    ensures Number(Bytes(PackVoip(f))) == Number(FrameDigits(GSM0610_MAGIC, f, 4))
  {
    hide Number, Bytes, LarBytes, LarDigits, FiveBytes, LarNumber, SubsDigits, SubsBytes;
    var c, ds := LarBytes(f.LARc), [Digit(GSM0610_MAGIC, 16)] + LarDigits(f.LARc);
    LarHead(f.LARc, GSM0610_MAGIC);
    FiveBytesAppended([], c);
    assert [] + Bytes(c) == Bytes(c);
    LarBytesNumber(0, f.LARc);
    NumberOfNothing();
    PackedSubs(ds, c, f.sub, 4);
  }

  lemma NumberOfNothing()
    ensures Number([]) == 0
  {
  }

  lemma LarHead(a: seq<int16>, magic: int)
    requires |a| == 8
    ensures Number([Digit(magic, 16)] + LarDigits(a)) == LarNumber(magic, a)
  {
    hide Number, LarDigits, LarNumber;
    NumberOfNothing();
    NumberSnoc([], magic, 16);
    assert [] + [Digit(magic, 16)] == [Digit(magic, 16)];
    LarAppended([Digit(magic, 16)], a);
  }

  lemma {:induction false} UnpackedSubs(ds: seq<Digit>, c: seq<uint8>, n: nat)
    requires |c| == 33 && n <= 4
    requires Number(Bytes(c[..5])) == Number(ds)
    ensures Number(Bytes(c[..5 + 7 * n])) == Number(ds + SubsDigits(SubsFrom(c, n), n))
  {
    hide Number, Bytes, SubFrom, SubDigits, SevenBytes, SubNumber, SubFrame.InRange;
    if n == 0 {
      assert ds + SubsDigits(SubsFrom(c, 0), 0) == ds;
    } else {
      var before, last := SubsFrom(c, n - 1), c[5 + 7 * (n - 1)..5 + 7 * n];
      var d1 := ds + SubsDigits(before, n - 1);
      var c1 := c[..5 + 7 * (n - 1)];
      UnpackedSubs(ds, c, n - 1);
      BytesConcat(c1, last);
      SevenBytesAppended(Bytes(c1), last);
      SubFromNumber(Number(d1), last);
      SubFromLength(last);
      SubAppended(d1, SubFrom(last));
      assert c[..5 + 7 * n] == c1 + last;
      SubsDigitsOfPrefix(before, SubFrom(last), n - 1);
      assert ds + SubsDigits(SubsFrom(c, n), n) == d1 + SubDigits(SubFrom(last));
    }
  }

  lemma SubFromLength(c: seq<uint8>)
    requires |c| == 7
    ensures |SubFrom(c).xMc| == 13
  {
  }

  lemma {:induction false} SubsDigitsOfPrefix(sub: seq<SubFrame>, s: SubFrame, n: nat)
    requires n <= |sub|
    ensures SubsDigits(sub + [s], n) == SubsDigits(sub, n)
  {
    if n > 0 { SubsDigitsOfPrefix(sub, s, n - 1); }
  }

  /** Whatever the block, unpacking reads the digits of its number. */
  lemma UnpackedNumber(c: seq<uint8>)
    requires |c| == 33
    ensures Number(Bytes(c)) == Number(FrameDigits(Cut(c[0], 16, 16), UnpackVoip(c), 4))
  {
    hide Number, Bytes, LarFrom, LarDigits, FiveBytes, LarNumber, SubsDigits, SubsFrom, Cut, SubFrame.InRange;
    var head := c[..5];
    var nibble := Cut(c[0], 16, 16);
    LarHead(LarFrom(head), nibble);
    FiveBytesAppended([], head);
    assert [] + Bytes(head) == Bytes(head);
    LarFromNumber(0, head);
    NumberOfNothing();
    UnpackedSubs([Digit(nibble, 16)] + LarDigits(LarFrom(head)), c, 4);
    assert c[..33] == c;
  }

  // ---- the two round trips ----

  lemma {:induction false} SubsDigitsInRange(sub: seq<SubFrame>, other: seq<SubFrame>, n: nat)
    requires n <= |sub| && n <= |other|
    requires forall k :: 0 <= k < n ==> sub[k].InRange() && other[k].InRange()
    ensures AllInRange(SubsDigits(sub, n)) && SameRadices(SubsDigits(sub, n), SubsDigits(other, n))
  {
    if n > 0 {
      SubsDigitsInRange(sub, other, n - 1);
      SubDigitsInRange(sub[n - 1], other[n - 1]);
      hide SubDigits, SubFrame.InRange, AllInRange, SameRadices;
      JoinedInRange(SubsDigits(sub, n - 1), SubDigits(sub[n - 1]), SubsDigits(other, n - 1), SubDigits(other[n - 1]));
    }
  }

  lemma {:induction false} SubsDigitsAreFaithful(sub: seq<SubFrame>, other: seq<SubFrame>, n: nat)
    requires n <= |sub| && n <= |other|
    requires forall k :: 0 <= k < n ==> sub[k].InRange() && other[k].InRange()
    requires SubsDigits(sub, n) == SubsDigits(other, n)
    ensures sub[..n] == other[..n]
  {
    if n > 0 {
      var ds, es, s, t := SubsDigits(sub, n - 1), SubsDigits(other, n - 1), sub[n - 1], other[n - 1];
      assert |ds| == |es| by { SubsDigitsInRange(sub, other, n - 1); }
      SubDigitsInRange(s, t);
      hide SubDigits, SubFrame.InRange, SubsDigits;
      SameParts(ds, SubDigits(s), es, SubDigits(t));
      SubsDigitsAreFaithful(sub, other, n - 1);
      SnocPrefix(sub, other, n);
    }
  }

  lemma JoinedInRange(a: seq<Digit>, x: seq<Digit>, b: seq<Digit>, y: seq<Digit>)
    requires AllInRange(a) && AllInRange(x) && SameRadices(a, b) && SameRadices(x, y)
    ensures AllInRange(a + x) && SameRadices(a + x, b + y)
  {
  }

  lemma SubDigitsInRange(s: SubFrame, t: SubFrame)
    requires s.InRange() && t.InRange()
    ensures AllInRange(SubDigits(s)) && SameRadices(SubDigits(s), SubDigits(t))
    ensures SubDigits(s) == SubDigits(t) ==> s == t
  {
    var x, y := SubDigits(s), SubDigits(t);
    assert x[4..] == SampleDigits(s.xMc) && y[4..] == SampleDigits(t.xMc);
    if x == y {
      assert x[0] == y[0] && x[1] == y[1] && x[2] == y[2] && x[3] == y[3];
      assert forall i :: 0 <= i < 13 ==> SampleDigits(s.xMc)[i].value == SampleDigits(t.xMc)[i].value;
      assert s.xMc == t.xMc;
    }
  }

  lemma LarDigitsInRange(a: seq<int16>, b: seq<int16>)
    requires LarcInRange(a) && LarcInRange(b)
    ensures AllInRange(LarDigits(a)) && SameRadices(LarDigits(a), LarDigits(b))
    ensures LarDigits(a) == LarDigits(b) ==> a == b
  {
    var x, y := LarDigits(a), LarDigits(b);
    assert forall i :: 0 <= i < 8 ==> x[i].value == a[i] && x[i].radix == LAR_LIMIT[i] + 1;
    assert forall i :: 0 <= i < 8 ==> y[i].value == b[i] && y[i].radix == LAR_LIMIT[i] + 1;
    if x == y {
      assert a == b;
    }
  }

  /** The digits determine the frame, and the frame determines their radices. */
  lemma FrameDigitsAreFaithful(m: int, f: Frame, n: int, g: Frame)
    requires 0 <= m < 16 && 0 <= n < 16 && f.InRange() && g.InRange()
    requires Number(FrameDigits(m, f, 4)) == Number(FrameDigits(n, g, 4))
    ensures m == n && f == g
  {
    hide Number, LarDigits, SubsDigits, SubFrame.InRange;
    LarDigitsInRange(f.LARc, g.LARc);
    LarDigitsInRange(g.LARc, f.LARc);
    SubsDigitsInRange(f.sub, g.sub, 4);
    SubsDigitsInRange(g.sub, f.sub, 4);
    var a, b := FrameDigits(m, f, 4), FrameDigits(n, g, 4);
    DigitsAreUnique(a, b);
    assert a[0] == b[0];
    assert a[1..9] == LarDigits(f.LARc) && b[1..9] == LarDigits(g.LARc);
    assert a[9..] == SubsDigits(f.sub, 4) && b[9..] == SubsDigits(g.sub, 4);
    SubsDigitsAreFaithful(f.sub, g.sub, 4);
    assert f.sub[..4] == f.sub && g.sub[..4] == g.sub;
  }

  /** Every in-range frame survives the wire. */
  lemma UnpackUndoesPack(f: Frame)
    requires f.InRange()
    ensures UnpackVoip(PackVoip(f)) == f
  {
    hide Number, PackVoip, UnpackVoip, FrameDigits, Cut;
    var c := PackVoip(f);
    PackedNumber(f);
    UnpackedNumber(c);
    FrameDigitsAreFaithful(GSM0610_MAGIC, f, Cut(c[0], 16, 16), UnpackVoip(c));
  }

  /** Repacking a received block restores everything but the signature nibble. */
  lemma PackAfterUnpack(c: seq<uint8>)
    requires |c| == 33
    ensures PackVoip(UnpackVoip(c)) == c[0 := GSM0610_MAGIC * 16 + Cut(c[0], 1, 16)]
  {
    var signed := c[0 := GSM0610_MAGIC * 16 + Cut(c[0], 1, 16)];
    SignatureIsIgnored(c);
    SignatureNibble(signed[0], Cut(c[0], 1, 16));
    hide Number, PackVoip, UnpackVoip, FrameDigits, Cut;
    var f := UnpackVoip(c);
    PackedNumber(f);
    UnpackedNumber(signed);
    BytesAreUnique(PackVoip(f), signed);
  }

  lemma SignatureNibble(byte: uint8, low: int)
    requires byte == GSM0610_MAGIC * 16 + low && 0 <= low < 16
    ensures Cut(byte, 16, 16) == GSM0610_MAGIC && Cut(byte, 1, 16) == low
  {
    assert byte / 1 == byte;
  }

  lemma SignatureIsIgnored(c: seq<uint8>)
    requires |c| == 33
    ensures UnpackVoip(c[0 := GSM0610_MAGIC * 16 + Cut(c[0], 1, 16)]) == UnpackVoip(c)
  {
    var d := c[0 := GSM0610_MAGIC * 16 + Cut(c[0], 1, 16)];
    SignatureNibble(d[0], Cut(c[0], 1, 16));
    hide Cut, SubFrom;
    assert LarFrom(c[..5]) == LarFrom(d[..5]);
    SubsFromTail(c, d, 4);
  }

  lemma {:induction false} SubsFromTail(c: seq<uint8>, d: seq<uint8>, n: nat)
    requires |c| == |d| == 33 && c[1..] == d[1..] && n <= 4
    ensures SubsFrom(c, n) == SubsFrom(d, n)
  {
    hide SubFrom;
    if n > 0 {
      SubsFromTail(c, d, n - 1);
      var at := 5 + 7 * (n - 1);
      assert c[at..at + 7] == c[1..][at - 1..at + 6] == d[at..at + 7];
    }
  }

  lemma BytesAreUnique(a: seq<uint8>, b: seq<uint8>)
    requires |a| == |b| && Number(Bytes(a)) == Number(Bytes(b))
    ensures a == b
  {
    hide Number;
    DigitsAreUnique(Bytes(a), Bytes(b));
    assert forall i :: 0 <= i < |a| ==> Bytes(a)[i].value == Bytes(b)[i].value;
  }

  /** Repacking is the identity exactly on blocks that carry the signature. */
  lemma PackUndoesUnpackIffSigned(c: seq<uint8>)
    requires |c| == 33
    ensures PackVoip(UnpackVoip(c)) == c <==> Cut(c[0], 16, 16) == GSM0610_MAGIC
  {
    PackAfterUnpack(c);
    ByteFields(c[0]);
    SignatureNibble(GSM0610_MAGIC * 16 + Cut(c[0], 1, 16), Cut(c[0], 1, 16));
    hide Cut, PackVoip, UnpackVoip;
    var low := GSM0610_MAGIC * 16 + Cut(c[0], 1, 16);
    assert c[0 := low][0] == low;
    if low == c[0] { assert c[0 := low] == c; }
  }

  // ---- the routines ----

  method PackSub(c: array<uint8>, at: nat, s: SubFrame)
    requires at + 7 <= c.Length && |s.xMc| == 13
    modifies c
    ensures c[..at] == old(c[..at]) && c[at..at + 7] == SubBytes(s)
  {
    hide Cut;
    var x := s.xMc;
    c[at] := Cut(s.Nc, 1, 128) * 2 + Cut(s.bc, 2, 2);
    c[at + 1] := Cut(s.bc, 1, 2) * 128 + Cut(s.Mc, 1, 4) * 32 + Cut(s.xmaxc, 2, 32);
    c[at + 2] := Cut(s.xmaxc, 1, 2) * 128 + Cut(x[0], 1, 8) * 16 + Cut(x[1], 1, 8) * 2 + Cut(x[2], 4, 2);
    c[at + 3] := Cut(x[2], 1, 4) * 64 + Cut(x[3], 1, 8) * 8 + Cut(x[4], 1, 8);
    c[at + 4] := Cut(x[5], 1, 8) * 32 + Cut(x[6], 1, 8) * 4 + Cut(x[7], 2, 4);
    c[at + 5] := Cut(x[7], 1, 2) * 128 + Cut(x[8], 1, 8) * 16 + Cut(x[9], 1, 8) * 2 + Cut(x[10], 4, 2);
    c[at + 6] := Cut(x[10], 1, 4) * 64 + Cut(x[11], 1, 8) * 8 + Cut(x[12], 1, 8);
    assert c[at..at + 7] == SubBytes(s);
  }

  /** gsm0610_pack_voip. */
  method Gsm0610PackVoip(c: array<uint8>, s: Frame) returns (bytes: nat)
    requires c.Length >= 33 && s.Complete()
    modifies c
    ensures bytes == 33 && c[..33] == PackVoip(s)
    ensures s.InRange() ==> Number(Bytes(c[..33])) == Number(FrameDigits(GSM0610_MAGIC, s, 4))
  {
    hide Cut, SubBytes;
    var a := s.LARc;
    c[0] := GSM0610_MAGIC * 16 + Cut(a[0], 4, 16);
    c[1] := Cut(a[0], 1, 4) * 64 + Cut(a[1], 1, 64);
    c[2] := Cut(a[2], 1, 32) * 8 + Cut(a[3], 4, 8);
    c[3] := Cut(a[3], 1, 4) * 64 + Cut(a[4], 1, 16) * 4 + Cut(a[5], 4, 4);
    c[4] := Cut(a[5], 1, 4) * 64 + Cut(a[6], 1, 8) * 8 + Cut(a[7], 1, 8);
    assert c[..5] == LarBytes(a);
    hide LarBytes;
    assert c[..5] == LarBytes(a) + SubsBytes(s.sub, 0);
    var i := 0;
    while i < 4
      invariant 0 <= i <= 4
      invariant c[..5 + 7 * i] == LarBytes(a) + SubsBytes(s.sub, i)
    {
      ghost var before := c[..5 + 7 * i];
      PackSub(c, 5 + 7 * i, s.sub[i]);
      Associate(LarBytes(a), SubsBytes(s.sub, i), SubBytes(s.sub[i]));
      assert c[..5 + 7 * (i + 1)] == before + SubBytes(s.sub[i]);
      i := i + 1;
    }
    bytes := 33;
    if s.InRange() { PackedNumber(s); }
  }

  method UnpackSub(c: seq<uint8>) returns (s: SubFrame)
    requires |c| == 7
    ensures s == SubFrom(c)
  {
    hide Cut;
    var Nc := Cut(c[0], 2, 128);
    var bc := Cut(c[0], 1, 2) * 2;
    bc := bc + Cut(c[1], 128, 2);
    var Mc := Cut(c[1], 32, 4);
    var xmaxc := Cut(c[1], 1, 32) * 2;
    xmaxc := xmaxc + Cut(c[2], 128, 2);
    var x := [Cut(c[2], 16, 8), Cut(c[2], 2, 8)];
    x := x + [Cut(c[2], 1, 2) * 4 + Cut(c[3], 64, 4), Cut(c[3], 8, 8), Cut(c[3], 1, 8)];
    x := x + [Cut(c[4], 32, 8), Cut(c[4], 4, 8), Cut(c[4], 1, 4) * 2 + Cut(c[5], 128, 2)];
    x := x + [Cut(c[5], 16, 8), Cut(c[5], 2, 8), Cut(c[5], 1, 2) * 4 + Cut(c[6], 64, 4)];
    x := x + [Cut(c[6], 8, 8), Cut(c[6], 1, 8)];
    s := SubFrame(Nc, bc, Mc, xmaxc, x);
  }

  /** gsm0610_unpack_voip. */
  method Gsm0610UnpackVoip(c: seq<uint8>) returns (s: Frame, bytes: nat)
    requires |c| >= 33
    ensures bytes == 33 && s == UnpackVoip(c[..33]) && s.InRange()
    ensures Number(Bytes(c[..33])) == Number(FrameDigits(Cut(c[0], 16, 16), s, 4))
  {
    hide Cut, SubFrom;
    var block := c[..33];
    var LARc: seq<int16> :=
      [Cut(c[0], 1, 16) * 4 + Cut(c[1], 64, 4), Cut(c[1], 1, 64), Cut(c[2], 8, 32),
       Cut(c[2], 1, 8) * 4 + Cut(c[3], 64, 4), Cut(c[3], 4, 16), Cut(c[3], 1, 4) * 4 + Cut(c[4], 64, 4),
       Cut(c[4], 8, 8), Cut(c[4], 1, 8)];
    assert LARc == LarFrom(block[..5]);
    var sub: seq<SubFrame> := [];
    var i := 0;
    while i < 4
      invariant 0 <= i <= 4
      invariant sub == SubsFrom(block, i)
    {
      var one := UnpackSub(block[5 + 7 * i..5 + 7 * (i + 1)]);
      sub := sub + [one];
      i := i + 1;
    }
    s := Frame(LARc, sub);
    bytes := 33;
    UnpackedNumber(block);
  }
}
