/** The constant tables of g722.c, each behind an accessor whose contract states
    the range that the arithmetic relies on. */
module G722Tables {
  import opened Saturated

  const QMF_COEFFS_FWD: seq<int16> := [3, -11, 12, 32, -210, 951, 3876, -805, 362, -156, 53, -11]
  const QMF_COEFFS_REV: seq<int16> := [-11, 53, -156, 362, -805, 3876, 951, -210, 32, 12, -11, 3]

  const QM2: seq<int16> := [-7408, -1616, 7408, 1616]

  const QM4: seq<int16> := [
    0, -20456, -12896, -8968, -6288, -4240, -2584, -1200,
    20456, 12896, 8968, 6288, 4240, 2584, 1200, 0]

  const QM5: seq<int16> := [
    -280, -280, -23352, -17560, -14120, -11664, -9752, -8184,
    -6864, -5712, -4696, -3784, -2960, -2208, -1520, -880,
    23352, 17560, 14120, 11664, 9752, 8184, 6864, 5712,
    4696, 3784, 2960, 2208, 1520, 880, 280, -280]

  // qm6, codes 0 to 31 and 32 to 63
  const QM6_LOWER: seq<int16> := [
    -136, -136, -136, -136, -24808, -21904, -19008, -16704,
    -14984, -13512, -12280, -11192, -10232, -9360, -8576, -7856,
    -7192, -6576, -6000, -5456, -4944, -4464, -4008, -3576,
    -3168, -2776, -2400, -2032, -1688, -1360, -1040, -728]
  const QM6_UPPER: seq<int16> := [
    24808, 21904, 19008, 16704, 14984, 13512, 12280, 11192,
    10232, 9360, 8576, 7856, 7192, 6576, 6000, 5456,
    4944, 4464, 4008, 3576, 3168, 2776, 2400, 2032,
    1688, 1360, 1040, 728, 432, 136, -432, -136]

  const Q6: seq<int16> := [
    0, 35, 72, 110, 150, 190, 233, 276, 323, 370, 422, 473, 530, 587, 650, 714,
    786, 858, 940, 1023, 1121, 1219, 1339, 1458, 1612, 1765, 1980, 2195, 2557, 2919, 0, 0]

  const ILB: seq<int16> := [
    2048, 2093, 2139, 2186, 2233, 2282, 2332, 2383, 2435, 2489, 2543, 2599, 2656, 2714, 2774, 2834,
    2896, 2960, 3025, 3091, 3158, 3228, 3298, 3371, 3444, 3520, 3597, 3676, 3756, 3838, 3922, 4008]

  const ILN: seq<int16> := [
    0, 63, 62, 31, 30, 29, 28, 27, 26, 25, 24, 23, 22, 21, 20, 19,
    18, 17, 16, 15, 14, 13, 12, 11, 10, 9, 8, 7, 6, 5, 4, 0]

  const ILP: seq<int16> := [
    0, 61, 60, 59, 58, 57, 56, 55, 54, 53, 52, 51, 50, 49, 48, 47,
    46, 45, 44, 43, 42, 41, 40, 39, 38, 37, 36, 35, 34, 33, 32, 0]

  const IHN: seq<int16> := [0, 1, 0]
  const IHP: seq<int16> := [0, 3, 2]
  const WL: seq<int16> := [-60, -30, 58, 172, 334, 538, 1198, 3042]
  const RL42: seq<int16> := [0, 7, 6, 5, 4, 3, 2, 1, 7, 6, 5, 4, 3, 2, 1, 0]
  const WH: seq<int16> := [0, -214, 798]
  const RH2: seq<int16> := [2, 1, 2, 1]

  function Qm2(i: nat): (r: int)
    requires i < 4
    ensures -7408 <= r <= 7408
  {
    QM2[i]
  }

  function Qm4(i: nat): (r: int)
    requires i < 16
    ensures -20456 <= r <= 20456
  {
    QM4[i]
  }

  function Qm5(i: nat): (r: int)
    requires i < 32
    ensures -23352 <= r <= 23352
  {
    QM5[i]
  }

  function Qm6(i: nat): (r: int)
    requires i < 64
    ensures -24808 <= r <= 24808
  {
    if i < 32 then QM6_LOWER[i] else QM6_UPPER[i - 32]
  }

  /** Decision levels of the six-bit quantizer; the last two entries are padding. */
  function Q6Level(i: nat): (r: int)
    requires i < 30
    ensures 0 <= r <= 2919
  {
    Q6[i]
  }

  /** The mantissas of the scale factor fill one octave. */
  function Ilb(i: nat): (r: int)
    requires i < 32
    ensures 2048 <= r < 4096
  {
    ILB[i]
  }

  lemma IlbIsIncreasing(i: nat, j: nat)
    requires i <= j < 32
    ensures Ilb(i) <= Ilb(j)
  {
  }

  function Iln(i: nat): (r: nat)
    requires 1 <= i <= 30
    ensures r < 64
  {
    ILN[i]
  }

  function Ilp(i: nat): (r: nat)
    requires 1 <= i <= 30
    ensures r < 64
  {
    ILP[i]
  }

  /** Change of the low-band log scale for a four-bit code. */
  function LowScaleStep(ril: nat): (r: int)
    requires ril < 16
    ensures -60 <= r <= 3042
  {
    WL[RL42[ril]]
  }

  /** Change of the high-band log scale for a two-bit code. */
  function HighScaleStep(ihigh: nat): (r: int)
    requires ihigh < 4
    ensures -214 <= r <= 798
  {
    WH[RH2[ihigh]]
  }

  function HighCode(negative: bool, mih: nat): (r: nat)
    requires 1 <= mih <= 2
    ensures r < 4
  {
    if negative then IHN[mih] else IHP[mih]
  }
}
