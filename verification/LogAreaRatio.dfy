/** Log-area ratios: transformation and coding of the reflection coefficients
    (gsm0610_lpc.c, sections 4.2.6 and 4.2.7 of GSM 06.10), and the LPC analysis as
    a whole. */
module LogAreaRatio {
  import opened Saturated
  import opened GsmState
  import opened Autocorrelation
  import opened Reflection
  import opened ShortTerm

  // ---- 4.2.6 ----

  function LarMagnitude(temp: int16): (r: int16)
    requires 0 <= temp
    ensures 0 <= r
  {
    if temp < 22118 then temp / 2
    else if temp < 31130 then temp - 11059
    else (temp - 26112) * 4
  }

  function LarOf(r: int16): (lar: int16)
    ensures -26620 <= lar <= 26620
  {
    var temp := LarMagnitude(Abs16(r));
    if r < 0 then -temp else temp
  }

  /** The transformation is increasing, so the decoder's inverse can be as well. */
  lemma LarOfIsMonotone(x: int16, y: int16)
    requires x <= y
    ensures LarOf(x) <= LarOf(y)
  {
  }

  /** The decoding map of the short-term filters undoes the transformation on all
      three segments, up to the one bit that halving drops on the first. */
  lemma RpOfUndoesLarOf(r: int16)
    requires r != -0x8000
    ensures Abs(RpOf(LarOf(r)) - r) <= 1
  {
  }

  // ---- 4.2.7 ----

  /** The STEP macro: scale, offset, round, and limit to the code range. */
  function LarCode(lar: int16, a: int16, b: int16, mac: int16, mic: int16): (c: int16)
    requires -32 <= mic < 0 <= mac <= 31
    ensures 0 <= c <= mac - mic
  {
    var temp := Add16(Add16(Mul16(a, lar), b), 256) / 512;
    if temp > mac then mac - mic else if temp < mic then 0 else temp - mic
  }

  const LAR_A: Vec8 := [20480, 20480, 20480, 20480, 13964, 15360, 8534, 9036]
  const LAR_OFFSET: Vec8 := [0, 0, 2048, -2560, 94, -1792, -341, -1144]
  const LAR_MAC: Vec8 := [31, 31, 15, 15, 7, 7, 3, 3]

  /** The largest code of each ratio: every packing has just enough bits for it. */
  const LAR_LIMIT: Vec8 := [63, 63, 31, 31, 15, 15, 7, 7]

  lemma LarTables(i: nat)
    requires i < 8
    ensures -32 <= LAR_MIC[i] < 0 <= LAR_MAC[i] <= 31
    ensures LAR_MAC[i] - LAR_MIC[i] == LAR_LIMIT[i]
  {
  }

  /** The coder's code of a value. */
  function CodeOfValue(i: nat, lar: int16): (c: int16)
    requires i < 8
    ensures 0 <= c <= LAR_LIMIT[i]
  {
    LarTables(i);
    LarCode(lar, LAR_A[i], LAR_OFFSET[i], LAR_MAC[i], LAR_MIC[i])
  }

  function CodeAt(lar: Vec8, i: nat): (c: int16)
    requires i < 8
    ensures 0 <= c <= LAR_LIMIT[i]
  {
    CodeOfValue(i, lar[i])
  }

  predicate LarcInRange(larc: seq<int>) {
    |larc| == 8 && forall i :: 0 <= i < 8 ==> 0 <= larc[i] <= LAR_LIMIT[i]
  }

  /** The codes for which the short-term filters lose a sample are ones that can be sent. */
  lemma SteepCodesAreInRange()
    ensures LarcInRange(STEEP_CODES)
  {
  }

  function LarVector(r: Vec8): Vec8 {
    seq(8, i requires 0 <= i < 8 => LarOf(r[i]))
  }

  function LarcOf(r: Vec8): (larc: Vec8)
    ensures LarcInRange(larc)
  {
    var lar := LarVector(r);
    seq(8, i requires 0 <= i < 8 => CodeAt(lar, i))
  }

  /** LPC analysis of a frame: the coded ratios, and the frame after rescaling. */
  function LpcOf(s: seq<int16>): (larc: Vec8)
    requires |s| == 160
    ensures LarcInRange(larc)
  {
    AcfIsDominated(s);
    LarcOf(ReflectionOf(Acf(s)))
  }

  // ---- the quantizer against the decoder's table ----

  /** The decoder's value of a code. */
  function ValueOfCode(i: nat, c: int16): int16
    requires i < 8
  {
    LarStep(c, LAR_B[i], LAR_MIC[i], LAR_INVA[i])
  }

  /** `q` is the quotient of `x` by 2^15, rounded down. */
  predicate Floored(x: int, q: int) {
    0x8000 * q <= x < 0x8000 * q + 0x8000
  }

  /** Half a step of each quantizer, with the rounding at both ends. */
  const LAR_ERROR: Vec8 := [410, 410, 410, 410, 601, 547, 984, 929]

  /** The level of an input: the integer below its scaled and offset value, in steps
      of 512. */
  predicate AtLevel(g: int, b: int, m: int) {
    512 * m <= g + b + 256 < 512 * m + 512
  }

  // The two tables fit together, row by row: with `2 * q` the value of the code of level
  // `m`, that value is at level `m` again, and every input at level `m` lies within
  // LAR_ERROR of it.

  lemma FirstRows(m: int, t: int, q: int, f: int, lar: int, g: int)
    requires -32 <= m <= 31 && t == 1024 * m + 0 && Floored(Product(13107, t) + 0x4000, q)
    requires Floored(Product(20480, 2 * q), f) && Floored(Product(20480, lar), g)
    ensures -0x4000 <= q <= 0x3FFF && AtLevel(f, 0, m)
    ensures AtLevel(g, 0, m) ==> -410 <= 2 * q - lar <= 410
  {
    ProductIsTimes(13107, t);
    ProductIsTimes(20480, 2 * q);
    ProductIsTimes(20480, lar);
  }

  lemma ThirdRow(m: int, t: int, q: int, f: int, lar: int, g: int)
    requires -16 <= m <= 15 && t == 1024 * m - 4096 && Floored(Product(13107, t) + 0x4000, q)
    requires Floored(Product(20480, 2 * q), f) && Floored(Product(20480, lar), g)
    ensures -0x4000 <= q <= 0x3FFF && AtLevel(f, 2048, m)
    ensures AtLevel(g, 2048, m) ==> -410 <= 2 * q - lar <= 410
  {
    ProductIsTimes(13107, t);
    ProductIsTimes(20480, 2 * q);
    ProductIsTimes(20480, lar);
  }

  lemma FourthRow(m: int, t: int, q: int, f: int, lar: int, g: int)
    requires -16 <= m <= 15 && t == 1024 * m + 5120 && Floored(Product(13107, t) + 0x4000, q)
    requires Floored(Product(20480, 2 * q), f) && Floored(Product(20480, lar), g)
    ensures -0x4000 <= q <= 0x3FFF && AtLevel(f, -2560, m)
    ensures AtLevel(g, -2560, m) ==> -410 <= 2 * q - lar <= 410
  {
    ProductIsTimes(13107, t);
    ProductIsTimes(20480, 2 * q);
    ProductIsTimes(20480, lar);
  }

  lemma FifthRow(m: int, t: int, q: int, f: int, lar: int, g: int)
    requires -8 <= m <= 7 && t == 1024 * m - 188 && Floored(Product(19223, t) + 0x4000, q)
    requires Floored(Product(13964, 2 * q), f) && Floored(Product(13964, lar), g)
    ensures -0x4000 <= q <= 0x3FFF && AtLevel(f, 94, m)
    ensures AtLevel(g, 94, m) ==> -601 <= 2 * q - lar <= 601
  {
    ProductIsTimes(19223, t);
    ProductIsTimes(13964, 2 * q);
    ProductIsTimes(13964, lar);
  }

  lemma SixthRow(m: int, t: int, q: int, f: int, lar: int, g: int)
    requires -8 <= m <= 7 && t == 1024 * m + 3584 && Floored(Product(17476, t) + 0x4000, q)
    requires Floored(Product(15360, 2 * q), f) && Floored(Product(15360, lar), g)
    ensures -0x4000 <= q <= 0x3FFF && AtLevel(f, -1792, m)
    ensures AtLevel(g, -1792, m) ==> -547 <= 2 * q - lar <= 547
  {
    ProductIsTimes(17476, t);
    ProductIsTimes(15360, 2 * q);
    ProductIsTimes(15360, lar);
  }

  lemma SeventhRow(m: int, t: int, q: int, f: int, lar: int, g: int)
    requires -4 <= m <= 3 && t == 1024 * m + 682 && Floored(Product(31454, t) + 0x4000, q)
    requires Floored(Product(8534, 2 * q), f) && Floored(Product(8534, lar), g)
    ensures -0x4000 <= q <= 0x3FFF && AtLevel(f, -341, m)
    ensures AtLevel(g, -341, m) ==> -984 <= 2 * q - lar <= 984
  {
    ProductIsTimes(31454, t);
    ProductIsTimes(8534, 2 * q);
    ProductIsTimes(8534, lar);
  }

  lemma EighthRow(m: int, t: int, q: int, f: int, lar: int, g: int)
    requires -4 <= m <= 3 && t == 1024 * m + 2288 && Floored(Product(29708, t) + 0x4000, q)
    requires Floored(Product(9036, 2 * q), f) && Floored(Product(9036, lar), g)
    ensures -0x4000 <= q <= 0x3FFF && AtLevel(f, -1144, m)
    ensures AtLevel(g, -1144, m) ==> -929 <= 2 * q - lar <= 929
  {
    ProductIsTimes(29708, t);
    ProductIsTimes(9036, 2 * q);
    ProductIsTimes(9036, lar);
  }

  lemma RowsFit(i: nat, m: int, t: int, q: int, f: int, lar: int, g: int)
    requires i < 8 && LAR_MIC[i] <= m <= LAR_MAC[i]
    requires t == 1024 * m - 2 * LAR_B[i] && Floored(Product(LAR_INVA[i], t) + 0x4000, q)
    requires Floored(Product(LAR_A[i], 2 * q), f) && Floored(Product(LAR_A[i], lar), g)
    ensures -0x4000 <= q <= 0x3FFF && AtLevel(f, LAR_B[i], m)
    ensures AtLevel(g, LAR_B[i], m) ==> -LAR_ERROR[i] <= 2 * q - lar <= LAR_ERROR[i]
  {
    hide Product, Floored, AtLevel;
    if i <= 1 { FirstRows(m, t, q, f, lar, g); }
    else if i == 2 { ThirdRow(m, t, q, f, lar, g); }
    else if i == 3 { FourthRow(m, t, q, f, lar, g); }
    else if i == 4 { FifthRow(m, t, q, f, lar, g); }
    else if i == 5 { SixthRow(m, t, q, f, lar, g); }
    else if i == 6 { SeventhRow(m, t, q, f, lar, g); }
    else { EighthRow(m, t, q, f, lar, g); }
  }

  lemma TablesAgree(i: nat)
    requires i < 8
    ensures LAR_OFFSET[i] == LAR_B[i] && -2560 <= LAR_B[i] <= 2048
    ensures 0 < LAR_A[i] <= 20480 && 0 < LAR_INVA[i] <= 0x7FFF
    ensures -0x8000 <= 1024 * LAR_MIC[i] - 2 * LAR_B[i] && 1024 * LAR_MAC[i] - 2 * LAR_B[i] <= 0x7FFF
  {
  }

  /** The coder's arithmetic for one value is exact. */
  lemma LevelOfValue(lar: int16, a: int16, b: int16) returns (g: int)
    requires 0 < a <= 20480 && -2560 <= b <= 2048
    ensures Floored(Product(a, lar), g) && Add16(Add16(Mul16(a, lar), b), 256) == g + b + 256
  {
    g := Mul16(a, lar);
    ProductBounds(a, lar, 20480, 0x8000);
  }

  /** The decoder's arithmetic for one code, before the doubling. */
  lemma ValueOfLevel(c: int16, b: int16, mic: int16, inva: int16, t: int) returns (q: int)
    requires -32 <= mic < 0 && 0 <= c <= 63 && -2560 <= b <= 2048 && 0 < inva
    requires c + mic <= 31 && t == 1024 * (c + mic) - 2 * b && -0x8000 <= t <= 0x7FFF
    ensures Floored(Product(inva, t) + 0x4000, q)
    ensures -0x4000 <= q <= 0x3FFF ==> LarStep(c, b, mic, inva) == 2 * q
  {
    q := RoundMul(inva, t);
    hide Product;
    var level: int := Add16(c, mic);
    assert level == c + mic;
    assert Wrap16(level * 1024) == level * 1024 && Wrap16(b * 2) == b * 2;
    assert Sub16(Wrap16(level * 1024), Wrap16(b * 2)) == t;
  }

  /** Level and code. */
  lemma CodeAtLevel(lar: int16, a: int16, b: int16, mac: int16, mic: int16, g: int, m: int)
    requires -32 <= mic < 0 <= mac <= 31 && mic <= m <= mac
    requires Add16(Add16(Mul16(a, lar), b), 256) == g + b + 256
    ensures AtLevel(g, b, m) ==> LarCode(lar, a, b, mac, mic) == m - mic
    ensures mic < m < mac && LarCode(lar, a, b, mac, mic) == m - mic ==> AtLevel(g, b, m)
  {
    hide Mul16, Add16;
  }

  lemma RowFitsDecoder(i: nat, c: int16, lar: int16, a: int16, b: int16, mac: int16, mic: int16, inva: int16, e: int16)
    requires i < 8 && a == LAR_A[i] && b == LAR_B[i] && mac == LAR_MAC[i] && mic == LAR_MIC[i] && inva == LAR_INVA[i]
    requires e == LAR_ERROR[i] && -32 <= mic < 0 <= mac <= 31 && 0 <= c <= mac - mic
    ensures LarCode(LarStep(c, b, mic, inva), a, b, mac, mic) == c
    ensures LarCode(lar, a, b, mac, mic) == c && 0 < c < mac - mic ==> Abs(LarStep(c, b, mic, inva) - lar) <= e
  {
    hide Mul16, Add16, LarStep, LarCode, Floored, Product, AtLevel;
    TablesAgree(i);
    var m := c + mic;
    var t := 1024 * m - 2 * b;
    var q := ValueOfLevel(c, b, mic, inva, t);
    var g := LevelOfValue(lar, a, b);
    RowsFit(i, m, t, q, ProductFloor(a, 2 * q), lar, g);
    var f := LevelOfValue(2 * q, a, b);
    RowsFit(i, m, t, q, f, lar, g);
    CodeAtLevel(2 * q, a, b, mac, mic, f, m);
    CodeAtLevel(lar, a, b, mac, mic, g, m);
  }

  function ProductFloor(a: int, x: int): (f: int)
    ensures Floored(Product(a, x), f)
  {
    Product(a, x) / 0x8000
  }

  /** The decoder's value of a code is coded as that code, and a value whose code is not
      at an end of the range is restored within LAR_ERROR. */
  lemma QuantizerFitsDecoder(i: nat, c: int16, lar: int16)
    requires i < 8 && 0 <= c <= LAR_LIMIT[i]
    ensures CodeOfValue(i, ValueOfCode(i, c)) == c
    ensures CodeOfValue(i, lar) == c && 0 < c < LAR_LIMIT[i] ==> Abs(ValueOfCode(i, c) - lar) <= LAR_ERROR[i]
  {
    LarTables(i);
    TablesAgree(i);
    hide LarStep, LarCode;
    RowFitsDecoder(i, c, lar, LAR_A[i], LAR_B[i], LAR_MAC[i], LAR_MIC[i], LAR_INVA[i], LAR_ERROR[i]);
  }

  /** Coding the decoded ratios of a frame gives back the codes. */
  lemma DecodedRatiosAreCodedBack(larc: Vec8)
    requires LarcInRange(larc)
    ensures forall i :: 0 <= i < 8 ==> CodeAt(DecodeLogAreaRatios(larc), i) == larc[i]
  {
    hide LarStep, LarCode;
    forall i | 0 <= i < 8
      ensures CodeAt(DecodeLogAreaRatios(larc), i) == larc[i]
    {
      QuantizerFitsDecoder(i, larc[i], 0);
      assert DecodeLogAreaRatios(larc)[i] == ValueOfCode(i, larc[i]);
    }
  }

  // ---- the procedures ----

  method TransformToLogAreaRatios(r: array<int16>)
    requires r.Length == 8
    modifies r
    ensures forall i :: 0 <= i < 8 ==> r[i] == LarOf(old(r[i]))
  {
    for i := 0 to 8
      invariant forall k :: 0 <= k < i ==> r[k] == LarOf(old(r[k]))
      invariant forall k :: i <= k < 8 ==> r[k] == old(r[k])
    {
      var temp: int := Abs16(r[i]);
      if temp < 22118 { temp := temp / 2; }
      else if temp < 31130 { temp := temp - 11059; }
      else {
        temp := temp - 26112;
        temp := temp * 4;
      }
      r[i] := if r[i] < 0 then -temp else temp;
    }
  }

  method QuantizationAndCoding(lar: array<int16>)
    requires lar.Length == 8
    modifies lar
    ensures forall i :: 0 <= i < 8 ==> lar[i] == CodeAt(old(lar[..]), i)
  {
    ghost var lar0 := lar[..];
    for i := 0 to 8
      invariant forall k :: 0 <= k < i ==> lar[k] == CodeAt(lar0, k)
      invariant forall k :: i <= k < 8 ==> lar[k] == lar0[k]
    {
      LarTables(i);
      lar[i] := LarCode(lar[i], LAR_A[i], LAR_OFFSET[i], LAR_MAC[i], LAR_MIC[i]);
    }
  }

  /** gsm0610_lpc_analysis. */
  method LpcAnalysis(amp: array<int16>, larc: array<int16>)
    requires amp.Length == 160 && larc.Length == 8 && amp != larc
    modifies amp, larc
    ensures larc[..] == LpcOf(old(amp[..]))
    ensures amp[..] == RescaledFrame(old(amp[..]))
  {
    hide Acf, RescaledFrame, ReflectionOf, LarOf, CodeAt;
    ghost var s := amp[..];
    AcfIsDominated(s);
    var L_ACF := new int[9];
    AutocorrelationOf(amp, L_ACF);
    ReflectionCoefficients(L_ACF, larc);
    ghost var r: Vec8 := larc[..];
    TransformToLogAreaRatios(larc);
    assert larc[..] == LarVector(r);
    QuantizationAndCoding(larc);
    assert larc[..] == LarcOf(r);
  }
}
