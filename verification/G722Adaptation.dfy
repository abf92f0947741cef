/** What the adaptive predictor of G.722 is for: its coefficients move towards the signal,
    and its prediction is the inner product of coefficients and past (sections 3.6.1 to
    3.6.4 of ITU-T G.722). */
module G722Adaptation {
  import opened Saturated
  import opened G722Band

  function Sign(x: int): int {
    if x > 0 then 1 else if x < 0 then -1 else 0
  }

  // ---- zeros ----

  /** Measured along its own delayed sample, a zero moves by 128 in the direction of the
      difference signal.  Nothing saturates, whatever the coefficient. */
  lemma ZeroFollows(b: int16, delayed: int16, dx: int16)
    ensures Product(NewZero(b, delayed, dx) - NewZero(b, delayed, 0), delayed) == 128 * Abs(delayed) * Sign(dx)
  {
    var step := NewZero(b, delayed, dx) - NewZero(b, delayed, 0);
    assert step == 128 * (if dx == 0 then 0 else if SignsDiffer(delayed, dx) then -1 else 1);
    hide NewZero;
    if dx == 0 {
      ProductIsTimes(0, delayed);
    } else if SignsDiffer(delayed, dx) {
      ProductIsTimes(-128, delayed);
    } else {
      ProductIsTimes(128, delayed);
    }
  }

  /** Without a difference signal a zero only leaks: it loses a 256th, rounded up. */
  lemma ZeroLeaks(b: int16, delayed: int16)
    ensures b - NewZero(b, delayed, 0) == (b + 255) / 256
    ensures Abs(NewZero(b, delayed, 0)) <= Abs(b) && (b >= 0 ==> NewZero(b, delayed, 0) >= 0) && (b < 0 ==> NewZero(b, delayed, 0) < 0)
  {
  }

  /** By how much the first `n` coefficients `moved` predict more than the coefficients
      `resting` would, from the delayed samples in `d`. */
  function Movement(moved: seq<int16>, resting: seq<int16>, d: seq<int16>, n: nat): int
    requires |moved| == |resting| == 6 && |d| == 7 && n <= 6
  {
    if n == 0 then 0
    else Movement(moved, resting, d, n - 1) + Product(moved[n - 1] as int - resting[n - 1] as int, d[n])
  }

  function Magnitudes(d: seq<int16>, n: nat): nat
    requires n < |d|
  {
    if n == 0 then 0 else Magnitudes(d, n - 1) + Abs(d[n])
  }

  lemma {:induction false} NewZerosFollow(b: seq<int16>, d: seq<int16>, dx: int16, n: nat)
    requires |b| == 6 && |d| == 7 && n <= 6
    ensures Movement(NewZeros(b, d, dx), NewZeros(b, d, 0), d, n) == 128 * Magnitudes(d, n) * Sign(dx)
  {
    hide NewZero, Product, Sign;
    if n > 0 {
      NewZerosFollow(b, d, dx, n - 1);
      ZeroFollows(b[n - 1], d[n], dx);
      SignedSum(Magnitudes(d, n - 1), Abs(d[n]), Sign(dx));
    }
  }

  lemma SignedSum(x: int, y: int, s: int)
    ensures 128 * (x + y) * s == 128 * x * s + 128 * y * s
  {
  }

  /** The adaptation of the zeros goes the way of the signal: compared with an adaptation
      without a difference signal it changes the prediction from the same samples by 128
      times their magnitudes, with the sign of the difference. */
  lemma ZerosFollowSignal(st: Band, dx: int16)
    requires st.Shaped()
    ensures Movement(Predicted(st, dx).b, Predicted(st, 0).b, st.d, 6) == 128 * Magnitudes(st.d, 6) * Sign(dx)
  {
    hide NewZeros, PoleOne, PoleTwo, PolePrediction, ZeroSum, Movement, Magnitudes, Sign;
    NewZerosFollow(st.b, st.d, dx, 6);
  }

  // ---- poles ----

  /** The first pole moves up by 192 where the last two partial signals have the same sign
      and down by as much where they have not, from its leaked value, as far as the
      stability limit allows. */
  lemma FirstPoleFollows(a0: int16, ap1: int16, p: int16, p0: int16)
    requires -12288 <= ap1 <= 12288
    ensures var leaked, limit := a0 - (a0 + 255) / 256, 15360 - ap1;
            var resting := if leaked > limit then limit else if leaked < -limit then -limit else leaked;
            && (SignsDiffer(p, p0) ==> PoleOne(a0, ap1, p, p0) <= resting)
            && (!SignsDiffer(p, p0) ==> PoleOne(a0, ap1, p, p0) >= resting)
            && (-limit <= leaked - 192 && leaked + 192 <= limit ==>
                PoleOne(a0, ap1, p, p0) == leaked + (if SignsDiffer(p, p0) then -192 else 192))
  {
    LeakOf(a0);
    hide SignsDiffer, Wrap16;
  }

  lemma LeakOf(x: int16)
    ensures Wrap16(x * 32640 / 0x8000) == x - (x + 255) / 256
  {
  }

  /** The second pole moves with the sign of the signal two samples apart, and against the
      first pole where neighbouring signals agree, by a 32nd of it; the rest is leak. */
  lemma SecondPoleFollows(a0: int16, a1: int16, p: int16, p0: int16, p1: int16)
    ensures var leaked := a1 - (a1 + 127) / 128;
            var moved := PoleTwoSum(a0, a1, p, p0, p1) - leaked - (if SignsDiffer(p, p1) then -128 else 128);
            var push: int := if SignsDiffer(p, p0) then a0 as int else -(a0 as int);
            && (-8191 <= a0 <= 8191 ==> 32 * moved <= push < 32 * moved + 32)
            && (a0 < -8191 || a0 > 8191 ==> moved == (if push > 0 then 255 else -256))
  {
    PushOfFirstPole(a0, SignsDiffer(p, p0));
    hide SignsDiffer, Saturate;
    assert a1 * 32512 / 0x8000 == a1 - (a1 + 127) / 128;
  }

  lemma PushOfFirstPole(a0: int16, differ: bool)
    ensures var wd1: int := Saturate(a0 as int * 4);
            var push: int := if differ then a0 as int else -(a0 as int);
            var wd2: int := if differ then wd1 else -wd1;
            var t := (if wd2 > 32767 then 32767 else wd2) / 128;
            && (-8191 <= a0 <= 8191 ==> 32 * t <= push < 32 * t + 32)
            && (a0 < -8191 || a0 > 8191 ==> t == (if push > 0 then 255 else -256))
  {
    if a0 > 8191 {
    } else if a0 < -8191 {
    } else {
    }
  }

  lemma UnlimitedPole(a0: int16, a1: int16, p: int16, p0: int16, p1: int16)
    ensures var sum := PoleTwoSum(a0, a1, p, p0, p1);
            -12288 <= sum <= 12288 ==> PoleTwo(a0, a1, p, p0, p1) == sum
  {
    hide PoleTwoSum;
  }

  lemma PolesOf(st: Band, dx: int16)
    requires st.Shaped()
    ensures var n, p := Predicted(st, dx), Add16(st.sz, dx);
            && n.p0 == p && n.p1 == st.p0
            && n.a1 == PoleTwo(st.a0, st.a1, p, st.p0, st.p1) && n.a0 == PoleOne(st.a0, n.a1, p, st.p0)
  {
    hide PoleOne, PoleTwo, PolePrediction, NewZeros, ZeroSum, Add16;
  }

  /** From `st` to `n` the poles follow the partial signals `p`, `p0` and `p1`, the newest
      first: the second pole moves with the sign of the signals two steps apart and the
      first with that of neighbouring ones, on top of the leak and of what the first pole
      takes off the second. */
  predicate PolesFollow(st: Band, n: Band, p: int16, p0: int16, p1: int16) {
    FirstFollows(st.a0, n, p, p0) && SecondFollows(st, n.a1, p, p0, p1)
  }

  predicate FirstFollows(a0: int16, n: Band, p: int16, p0: int16) {
    var leaked := a0 - (a0 + 255) / 256;
    Abs(leaked) + 192 <= 15360 - n.a1 ==> n.a0 == leaked + (if SignsDiffer(p, p0) then -192 else 192)
  }

  predicate SecondFollows(st: Band, a1: int16, p: int16, p0: int16, p1: int16) {
    var leaked := st.a1 - (st.a1 + 127) / 128;
    var rest := a1 - leaked - (if SignsDiffer(p, p1) then -128 else 128);
    var push: int := if SignsDiffer(p, p0) then st.a0 as int else -(st.a0 as int);
    Abs(leaked) <= 11904 ==>
      (if -8191 <= st.a0 <= 8191 then 32 * rest <= push < 32 * rest + 32
       else rest == if push > 0 then 255 else -256)
  }

  lemma FirstMoves(a0: int16, n: Band, p: int16, p0: int16)
    requires -12288 <= n.a1 <= 12288 && n.a0 == PoleOne(a0, n.a1, p, p0)
    ensures FirstFollows(a0, n, p, p0)
  {
    hide PoleOne, SignsDiffer;
    FirstPoleFollows(a0, n.a1, p, p0);
  }

  lemma SecondMoves(st: Band, a1: int16, p: int16, p0: int16, p1: int16)
    requires a1 == PoleTwo(st.a0, st.a1, p, p0, p1)
    ensures SecondFollows(st, a1, p, p0, p1)
  {
    hide PoleTwo, PoleTwoSum, SignsDiffer;
    SecondPoleFollows(st.a0, st.a1, p, p0, p1);
    UnlimitedPole(st.a0, st.a1, p, p0, p1);
  }

  /** Over three steps of a band. */
  lemma PolesFollowSignal(st: Band, oldest: int16, older: int16, dx: int16)
    requires st.Shaped()
    ensures var first := Predicted(st, oldest);
            var second := Predicted(first, older);
            PolesFollow(second, Predicted(second, dx), Add16(second.sz, dx), Add16(first.sz, older), Add16(st.sz, oldest))
  {
    var first := Predicted(st, oldest);
    var second := Predicted(first, older);
    hide FirstFollows, SecondFollows, PoleOne, PoleTwo, Add16;
    PolesOf(st, oldest);
    PolesOf(first, older);
    PolesOf(second, dx);
    hide Predicted;
    var n, p := Predicted(second, dx), Add16(second.sz, dx);
    FirstMoves(second.a0, n, p, second.p0);
    SecondMoves(second, n.a1, p, second.p0, second.p1);
  }

  // ---- prediction ----

  function InnerProduct(b: seq<int16>, d: seq<int16>, i: nat): int
    requires |b| == 6 && |d| == 7 && i <= 6
    decreases 6 - i
  {
    if i == 6 then 0 else InnerProduct(b, d, i + 1) + Product(b[i], d[i + 1])
  }

  /** In units of 2^14, the zero section predicts the inner product of its coefficients and
      the last six differences, to within one unit per tap. */
  lemma {:induction false} ZerosPredict(b: seq<int16>, d: seq<int16>, i: nat)
    requires |b| == 6 && |d| == 7 && i <= 6
    requires forall k :: 1 <= k <= 6 ==> -0x4000 <= d[k] <= 0x3FFF
    ensures 0 <= InnerProduct(b, d, i) - 0x4000 * ZeroSum(b, d, i) <= 0x4000 * (6 - i)
    decreases 6 - i
  {
    if i < 6 {
      ZerosPredict(b, d, i + 1);
      DoubledTerm(b[i], d[i + 1]);
    }
  }

  lemma DoubledTerm(b: int16, d: int16)
    requires -0x4000 <= d <= 0x3FFF
    ensures var t := Product(b, Add16(d, d)) / 0x8000;
            0x4000 * t <= Product(b, d) < 0x4000 * t + 0x4000
  {
    ProductIsTimes(b, d);
    ProductIsTimes(b, 2 * d);
    assert b * (2 * d) == 2 * (b * d);
    assert Add16(d, d) == 2 * d;
  }

  lemma FilterCasts(a0: int16, a1: int16, r: int16, r1: int16)
    requires -12288 <= a1 <= 12288 && -(15360 - a1) <= a0 <= 15360 - a1
    ensures var x, y := Product(a0, Add16(r, r)) / 0x8000, Product(a1, Add16(r1, r1)) / 0x8000;
            Wrap16(x) == x && Wrap16(y) == y
  {
    hide Product;
    FilterCastsAreLossless(a0, a1, r, r1);
  }

  /** And the pole section that of its two coefficients and the last two restored signals. */
  lemma PolesPredict(a0: int16, a1: int16, r: int16, r1: int16)
    requires -12288 <= a1 <= 12288 && -(15360 - a1) <= a0 <= 15360 - a1
    requires -0x4000 <= r <= 0x3FFF && -0x4000 <= r1 <= 0x3FFF
    ensures -0x8000 <= PolePrediction(a0, a1, r, r1) - 1 && PolePrediction(a0, a1, r, r1) <= 0x7FFE
        ==> 0 <= Product(a0, r) + Product(a1, r1) - 0x4000 * PolePrediction(a0, a1, r, r1) <= 0x8000
  {
    hide Product, Wrap16;
    DoubledTerm(a0, r);
    DoubledTerm(a1, r1);
    FilterCasts(a0, a1, r, r1);
  }

  /** The quantities of one step are small enough for every doubling and sum to be exact. */
  predicate Moderate(st: Band, dx: int16)
    requires st.Shaped()
  {
    var n := Predicted(st, dx);
    && (forall k :: 1 <= k <= 6 ==> -0x4000 <= n.d[k] <= 0x3FFF)
    && -0x4000 <= st.r <= 0x3FFF && -0x4000 <= n.r <= 0x3FFF
    && -0x8000 < n.sz < 0x7FFF && -0x8000 < PolePrediction(n.a0, n.a1, n.r, st.r) < 0x7FFF && -0x8000 < n.s < 0x7FFF
  }

  /** One step of the predictor.  The restored signal and the newest difference enter their
      delay lines in front of the others; the next prediction is the inner product of the
      new coefficients and the delay lines, in units of 2^14, to within one unit per tap. */
  lemma StepPredicts(st: Band, dx: int16)
    requires st.Shaped() && Moderate(st, dx)
    ensures var n := Predicted(st, dx);
            && n.r == Add16(st.s, dx) && n.d[1] == dx && (forall k :: 1 <= k <= 5 ==> n.d[k + 1] == st.d[k])
            && 0 <= InnerProduct(n.b, n.d, 0) - 0x4000 * n.sz <= 0x4000 * 6
            && 0 <= Product(n.a0, n.r) + Product(n.a1, st.r) + InnerProduct(n.b, n.d, 0) - 0x4000 * n.s <= 0x4000 * 8
  {
    PredictedIsStable(st, dx);
    hide NewZeros, PoleOne, PoleTwo, PolePrediction, ZeroSum, InnerProduct, Product;
    var n := Predicted(st, dx);
    ZerosPredict(n.b, n.d, 0);
    PolesPredict(n.a0, n.a1, n.r, st.r);
    assert n.s == Add16(PolePrediction(n.a0, n.a1, n.r, st.r), n.sz);
  }
}
