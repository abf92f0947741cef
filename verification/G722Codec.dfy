/** g722_encode and g722_decode as a whole: the quadrature mirror filters over
    circular buffers, the sub-band coders, and the packing of codes. */
module G722Codec {
  import opened Saturated
  import opened BitStreams
  import opened VectorInt
  import opened G722Tables
  import opened G722Band
  import opened G722Predictors
  import opened G722Packing
  import opened G722Coding

  /** What init fixes.  Packing is never used at 8 bits per sample. */
  datatype Config = Config(bits: Width, eightK: bool, ituTestMode: bool, packed: bool) {
    predicate Valid() {
      packed ==> bits < 8
    }

    /** Samples read by one turn of the encoder. */
    function Stride(): (n: nat)
      ensures n == 1 || n == 2
    {
      if ituTestMode || eightK then 1 else 2
    }

    /** Wideband input is read in pairs; an odd length would run past its end. */
    predicate Whole(length: nat) {
      Stride() == 2 ==> length % 2 == 0
    }

    lemma WholeSum(first: nat, second: nat)
      requires Whole(first) && Whole(second)
      ensures Whole(first + second)
    {
    }

    lemma WholeStep(length: nat)
      requires Whole(length) && length > 0
      ensures Stride() <= length && Whole(length - Stride())
    {
    }
  }

  function ConfigFor(rate: int, sampleRate8000: bool, packedOption: bool): (c: Config)
    ensures c.Valid()
  {
    var bits: Width := if rate == 48000 then 6 else if rate == 56000 then 7 else 8;
    Config(bits, sampleRate8000, false, packedOption && bits != 8)
  }

  /** Twelve samples in time order, oldest first. */
  type Window = w: seq<int16> | |w| == 12 witness [0, 0, 0, 0, 0, 0, 0, 0, 0, 0, 0, 0]

  function Shifted(w: Window, v: int16): Window {
    w[1..] + [v]
  }

  // ---- the encoder on values ----

  datatype EncoderValue = EncoderValue(bands: Pair, x: Window, y: Window, out: Pending)

  function Limited(v: int16): (r: int16)
    ensures -16350 <= r <= 16350
  {
    if v > 16350 then 16350 else if v < -16350 then -16350 else v
  }

  function LowSum(x: Window, y: Window): int {
    (Dot(y, QMF_COEFFS_REV) + Dot(x, QMF_COEFFS_FWD)) / 16384
  }

  function HighSum(x: Window, y: Window): int {
    (Dot(y, QMF_COEFFS_REV) - Dot(x, QMF_COEFFS_FWD)) / 16384
  }

  datatype Split = Split(x: Window, y: Window, xlow: int16, xhigh: int16)

  /** The sub-band samples for the next turn, from the first samples of `amp`. */
  function SplitBands(cfg: Config, v: EncoderValue, amp: seq<int16>): Split
    requires cfg.Stride() <= |amp|
  {
    if cfg.ituTestMode then Split(v.x, v.y, amp[0] / 2, amp[0] / 2)
    else if cfg.eightK then Split(v.x, v.y, amp[0] / 2, 0)
    else
      var x, y := Shifted(v.x, Limited(amp[0])), Shifted(v.y, Limited(amp[1]));
      Split(x, y, Wrap16(LowSum(x, y)), Wrap16(HighSum(x, y)))
  }

  datatype Emission = Emission(state: EncoderValue, bytes: seq<uint8>)

  function EncodeTurn(cfg: Config, v: EncoderValue, amp: seq<int16>): (r: Emission)
    requires cfg.Valid() && v.bands.Shaped() && cfg.Stride() <= |amp|
    ensures r.state.bands.Shaped()
  {
    hide EncodeOne, PackOne, SplitBands;
    var split := SplitBands(cfg, v, amp);
    var one := EncodeOne(v.bands, cfg.bits, cfg.eightK, split.xlow, split.xhigh);
    if cfg.packed then
      var p := PackOne(v.out, one.code, cfg.bits);
      Emission(EncoderValue(one.state, split.x, split.y, p.state), p.bytes)
    else
      Emission(EncoderValue(one.state, split.x, split.y, v.out), [one.code])
  }

  function EncodeAll(cfg: Config, v: EncoderValue, amp: seq<int16>): (r: Emission)
    requires cfg.Valid() && v.bands.Shaped() && cfg.Whole(|amp|)
    ensures r.state.bands.Shaped()
    decreases |amp|
  {
    hide *;
    if amp == [] then Emission(v, [])
    else
      cfg.WholeStep(|amp|);
      var turn := EncodeTurn(cfg, v, amp);
      var rest := EncodeAll(cfg, turn.state, amp[cfg.Stride()..]);
      Emission(rest.state, turn.bytes + rest.bytes)
  }

  lemma EncodeNothing(cfg: Config, v: EncoderValue)
    requires cfg.Valid() && v.bands.Shaped()
    ensures cfg.Whole(0) && EncodeAll(cfg, v, []) == Emission(v, [])
  {
  }

  lemma EncodeAllStep(cfg: Config, v: EncoderValue, amp: seq<int16>)
    requires cfg.Valid() && v.bands.Shaped() && cfg.Whole(|amp|) && amp != []
    ensures cfg.Stride() <= |amp| && cfg.Whole(|amp[cfg.Stride()..]|)
    ensures var turn := EncodeTurn(cfg, v, amp);
            var rest := EncodeAll(cfg, turn.state, amp[cfg.Stride()..]);
            EncodeAll(cfg, v, amp) == Emission(rest.state, turn.bytes + rest.bytes)
  {
    cfg.WholeStep(|amp|);
    hide EncodeTurn, Config.Whole, Config.Valid;
  }

  /** Encoding two blocks in two calls gives the bytes of one call. */
  lemma {:induction false} EncodeAllConcat(cfg: Config, v: EncoderValue, a: seq<int16>, b: seq<int16>)
    requires cfg.Valid() && v.bands.Shaped() && cfg.Whole(|a|) && cfg.Whole(|b|)
    ensures cfg.Whole(|a + b|)
    ensures var first := EncodeAll(cfg, v, a);
            var second := EncodeAll(cfg, first.state, b);
            EncodeAll(cfg, v, a + b) == Emission(second.state, first.bytes + second.bytes)
    decreases |a|
  {
    hide *;
    cfg.WholeSum(|a|, |b|);
    if a == [] {
      assert a + b == b;
      EncodeNothing(cfg, v);
    } else {
      var n := cfg.Stride();
      EncodeAllStep(cfg, v, a);
      EncodeAllStep(cfg, v, a + b);
      assert (a + b)[n..] == a[n..] + b;
      TurnReadsItsStride(cfg, v, a, b);
      var turn := EncodeTurn(cfg, v, a);
      EncodeAllConcat(cfg, turn.state, a[n..], b);
      var first := EncodeAll(cfg, turn.state, a[n..]);
      Associate(turn.bytes, first.bytes, EncodeAll(cfg, first.state, b).bytes);
    }
  }

  lemma TurnReadsItsStride(cfg: Config, v: EncoderValue, a: seq<int16>, b: seq<int16>)
    requires cfg.Valid() && v.bands.Shaped() && cfg.Stride() <= |a|
    ensures EncodeTurn(cfg, v, a + b) == EncodeTurn(cfg, v, a)
  {
    hide EncodeOne, PackOne, LowSum, HighSum;
  }

  /** Every sample held by the encoder's filter has been limited. */
  predicate Bounded(w: Window, m: int) {
    forall i :: 0 <= i < 12 ==> -m <= w[i] <= m
  }

  lemma QmfGain()
    ensures AbsSum(QMF_COEFFS_FWD) == 6482 && AbsSum(QMF_COEFFS_REV) == 6482
  {
    var f, r := QMF_COEFFS_FWD, QMF_COEFFS_REV;
    AbsSumFirst(f, 4);
    AbsSumFirst(f, 8);
    AbsSumFirst(f, 12);
    AbsSumFirst(r, 4);
    AbsSumFirst(r, 8);
    AbsSumFirst(r, 12);
    assert f[..12] == f && r[..12] == r && f[..0] == [] == r[..0];
  }

  /** Four steps of the sum. */
  lemma AbsSumFirst(ys: seq<int>, n: nat)
    requires 4 <= n <= |ys|
    ensures AbsSum(ys[..n]) == AbsSum(ys[..n - 4]) + Abs(ys[n - 4]) + Abs(ys[n - 3]) + Abs(ys[n - 2]) + Abs(ys[n - 1])
  {
    AbsSumNext(ys, n);
    AbsSumNext(ys, n - 1);
    AbsSumNext(ys, n - 2);
    AbsSumNext(ys, n - 3);
  }

  lemma AbsSumNext(ys: seq<int>, n: nat)
    requires 0 < n <= |ys|
    ensures AbsSum(ys[..n]) == AbsSum(ys[..n - 1]) + Abs(ys[n - 1])
  {
    assert ys[..n][..n - 1] == ys[..n - 1];
  }

  /** Whatever 16-bit samples a window holds, no partial sum of either filter leaves
      32 bits, and the sum and difference of two filters do not either. */
  lemma FiltersFit(w: Window)
    ensures PartialSumsFit(w, QMF_COEFFS_FWD) && PartialSumsFit(w, QMF_COEFFS_REV)
    ensures -0x4000_0000 < Dot(w, QMF_COEFFS_FWD) < 0x4000_0000 && -0x4000_0000 < Dot(w, QMF_COEFFS_REV) < 0x4000_0000
  {
    QmfGain();
    hide Dot, AbsSum, PartialSumsFit;
    DotBound(w, QMF_COEFFS_FWD, 0x8000);
    DotBound(w, QMF_COEFFS_REV, 0x8000);
    GainFits(w, QMF_COEFFS_FWD, 0x8000);
    GainFits(w, QMF_COEFFS_REV, 0x8000);
  }

  /** Neither accumulation nor cast of the transmit filter overflows, and both
      sub-band samples have 15 bits, as the error bound of the low band requires. */
  lemma SplitIsLossless(x: Window, y: Window)
    requires Bounded(x, 16350) && Bounded(y, 16350)
    ensures PartialSumsFit(x, QMF_COEFFS_FWD) && PartialSumsFit(y, QMF_COEFFS_REV)
    ensures -16384 <= LowSum(x, y) <= 16383 && -16384 <= HighSum(x, y) <= 16383
    ensures Wrap16(LowSum(x, y)) == LowSum(x, y) && Wrap16(HighSum(x, y)) == HighSum(x, y)
  {
    QmfGain();
    FiltersFit(x);
    FiltersFit(y);
    hide Dot, AbsSum, PartialSumsFit;
    DotBound(x, QMF_COEFFS_FWD, 16350);
    DotBound(y, QMF_COEFFS_REV, 16350);
  }

  /** In every mode the low-band sample has 15 bits. */
  lemma SubBandSamplesFit(cfg: Config, v: EncoderValue, amp: seq<int16>)
    requires cfg.Stride() <= |amp|
    requires Bounded(v.x, 16350) && Bounded(v.y, 16350)
    ensures var s := SplitBands(cfg, v, amp);
            && -16384 <= s.xlow <= 16383 && -16384 <= s.xhigh <= 16383
            && Bounded(s.x, 16350) && Bounded(s.y, 16350)
  {
    hide Dot, QMF_COEFFS_FWD, QMF_COEFFS_REV, LowSum, HighSum, Wrap16;
    if !cfg.ituTestMode && !cfg.eightK {
      SplitIsLossless(Shifted(v.x, Limited(amp[0])), Shifted(v.y, Limited(amp[1])));
    }
  }

  // ---- the decoder on values ----

  datatype DecoderValue = DecoderValue(bands: Pair, x: Window, y: Window, pending: Pending)

  datatype Playback = Playback(state: DecoderValue, amp: seq<int16>)

  /** The output samples for one decoded pair. */
  function JoinBands(cfg: Config, v: DecoderValue, bands: Pair, pending: Pending, rlow: int16, rhigh: int16): (r: Playback)
    ensures r.state.bands == bands && r.state.pending == pending
  {
    if cfg.ituTestMode then
      Playback(DecoderValue(bands, v.x, v.y, pending), [Wrap16(rlow * 2), Wrap16(rhigh * 2)])
    else if cfg.eightK then
      Playback(DecoderValue(bands, v.x, v.y, pending), [Wrap16(rlow * 2)])
    else
      var x, y := Shifted(v.x, Wrap16(rlow + rhigh)), Shifted(v.y, Wrap16(rlow - rhigh));
      Playback(DecoderValue(bands, x, y, pending),
               [Saturate(Dot(y, QMF_COEFFS_REV) / 2048), Saturate(Dot(x, QMF_COEFFS_FWD) / 2048)])
  }

  /** The two casts of the receive filter are lossless, because restored samples have
      15 bits; and so is the doubling in the other modes. */
  lemma JoinIsLossless(bands: Pair, bits: Width, eightK: bool, code: nat)
    requires bands.Shaped()
    ensures var d := DecodeOne(bands, bits, eightK, code);
            && Wrap16(d.rlow + d.rhigh) == d.rlow + d.rhigh && Wrap16(d.rlow - d.rhigh) == d.rlow - d.rhigh
            && Wrap16(d.rlow * 2) == d.rlow * 2 && Wrap16(d.rhigh * 2) == d.rhigh * 2
  {
    hide DecodeOne;
  }

  function DecodeTurn(cfg: Config, v: DecoderValue, code: nat, pending: Pending): (r: Playback)
    requires v.bands.Shaped()
    ensures r.state.bands.Shaped() && r.state.pending == pending
  {
    var one := DecodeOne(v.bands, cfg.bits, cfg.eightK, code);
    JoinBands(cfg, v, one.state, pending, one.rlow, one.rhigh)
  }

  function DecodeAll(cfg: Config, v: DecoderValue, data: seq<uint8>): (r: Playback)
    requires cfg.Valid() && v.bands.Shaped()
    ensures r.state.bands.Shaped()
    decreases |data|, v.pending.bits
  {
    if data == [] then Playback(v, [])
    else if cfg.packed then
      var u := UnpackOne(v.pending, data[0], cfg.bits);
      var turn := DecodeTurn(cfg, v, u.code, u.state);
      var rest := DecodeAll(cfg, turn.state, if u.used then data[1..] else data);
      Playback(rest.state, turn.amp + rest.amp)
    else
      var turn := DecodeTurn(cfg, v, data[0], v.pending);
      var rest := DecodeAll(cfg, turn.state, data[1..]);
      Playback(rest.state, turn.amp + rest.amp)
  }

  /** Decoding two blocks in two calls gives the samples and the state of one call. */
  lemma {:induction false} DecodeAllConcat(cfg: Config, v: DecoderValue, a: seq<uint8>, b: seq<uint8>)
    requires cfg.Valid() && v.bands.Shaped()
    ensures var first := DecodeAll(cfg, v, a);
            var second := DecodeAll(cfg, first.state, b);
            DecodeAll(cfg, v, a + b) == Playback(second.state, first.amp + second.amp)
    decreases |a|, v.pending.bits
  {
    hide DecodeTurn, UnpackOne;
    if a == [] {
      assert a + b == b;
    } else if cfg.packed {
      assert (a + b)[0] == a[0] && (a + b)[1..] == a[1..] + b;
      var u := UnpackOne(v.pending, a[0], cfg.bits);
      var turn := DecodeTurn(cfg, v, u.code, u.state);
      DecodeAllConcat(cfg, turn.state, if u.used then a[1..] else a, b);
    } else {
      assert (a + b)[0] == a[0] && (a + b)[1..] == a[1..] + b;
      var turn := DecodeTurn(cfg, v, a[0], v.pending);
      DecodeAllConcat(cfg, turn.state, a[1..], b);
    }
  }

  // ---- the encoder and the decoder as objects ----

  lemma FitsWidth(code: nat, bits: Width)
    requires code < (if bits == 8 then 256 else if bits == 7 then 128 else 64)
    ensures Fits(code, bits)
  {
    PowersAtHand();
  }

  class Encoder {
    const cfg: Config
    const low: BandState
    const high: BandState
    const x: array<int16>
    const y: array<int16>
    var ptr: nat
    var outBuffer: nat
    var outBits: nat

    ghost const Repr: set<object> := {this, x, y} + low.Repr + high.Repr

    ghost predicate Valid()
      reads this
    {
      && cfg.Valid() && low.Valid() && high.Valid() && low.Repr !! high.Repr
      && x.Length == 12 == y.Length && x != y && ptr < 12
      && {this, x, y} !! low.Repr + high.Repr
      && Pending(outBuffer, outBits).Valid()
    }

    ghost function Value(): (v: EncoderValue)
      requires Valid()
      reads Repr
      ensures v.bands.Shaped()
    {
      EncoderValue(Pair(low.Snapshot(), high.Snapshot()), Unrolled(x[..], ptr), Unrolled(y[..], ptr),
                   Pending(outBuffer, outBits))
    }

    /** g722_encode_init. */
    constructor (rate: int, sampleRate8000: bool, packedOption: bool)
      ensures Valid() && fresh(Repr) && cfg == ConfigFor(rate, sampleRate8000, packedOption)
      ensures Value() == EncoderValue(START, seq(12, _ => 0), seq(12, _ => 0), EMPTY)
    {
      cfg := ConfigFor(rate, sampleRate8000, packedOption);
      low := new BandState(32);
      high := new BandState(8);
      x := new int16[12](_ => 0);
      y := new int16[12](_ => 0);
      ptr, outBuffer, outBits := 0, 0, 0;
      new;
      assert Unrolled(x[..], 0) == seq(12, _ => 0);
      assert Unrolled(y[..], 0) == seq(12, _ => 0);
    }

    /** The transmit QMF, or the plain input in the other modes. */
    method Split(amp: seq<int16>, j: nat) returns (xlow: int16, xhigh: int16, next: nat)
      requires Valid() && j + cfg.Stride() <= |amp|
      modifies x, y, `ptr
      ensures Valid() && next == j + cfg.Stride()
      ensures var s := SplitBands(cfg, old(Value()), amp[j..]);
              && Unrolled(x[..], ptr) == s.x && Unrolled(y[..], ptr) == s.y && xlow == s.xlow && xhigh == s.xhigh
    {
      xhigh := 0;
      next := j;
      if cfg.ituTestMode {
        xlow := amp[next] / 2;
        xhigh := xlow;
        next := next + 1;
      } else if cfg.eightK {
        xlow := amp[next] / 2;
        next := next + 1;
      } else {
        xlow, xhigh := TransmitQmf(amp[next], amp[next + 1]);
        next := next + 2;
      }
    }

    method TransmitQmf(even: int16, odd: int16) returns (xlow: int16, xhigh: int16)
      requires Valid()
      modifies x, y, `ptr
      ensures Valid()
      ensures Unrolled(x[..], ptr) == Shifted(Unrolled(old(x[..]), old(ptr)), Limited(even))
      ensures Unrolled(y[..], ptr) == Shifted(Unrolled(old(y[..]), old(ptr)), Limited(odd))
      ensures xlow == Wrap16(LowSum(Unrolled(x[..], ptr), Unrolled(y[..], ptr)))
      ensures xhigh == Wrap16(HighSum(Unrolled(x[..], ptr), Unrolled(y[..], ptr)))
    {
      hide Dot, Wrap16;
      ghost var x0, y0 := x[..], y[..];
      xlow := even;
      if xlow > 16350 { xlow := 16350; }
      else if xlow < -16350 { xlow := -16350; }
      x[ptr] := xlow;
      assert x[..] == x0[ptr := Limited(even)];
      UnrolledAfterWrite(x0, ptr, Limited(even));
      xlow := odd;
      if xlow > 16350 { xlow := 16350; }
      else if xlow < -16350 { xlow := -16350; }
      y[ptr] := xlow;
      assert y[..] == y0[ptr := Limited(odd)];
      UnrolledAfterWrite(y0, ptr, Limited(odd));
      ptr := ptr + 1;
      if ptr >= 12 { ptr := 0; }
      xlow, xhigh := TransmitSums();
    }

    method TransmitSums() returns (xlow: int16, xhigh: int16)
      requires Valid()
      ensures xlow == Wrap16(LowSum(Unrolled(x[..], ptr), Unrolled(y[..], ptr)))
      ensures xhigh == Wrap16(HighSum(Unrolled(x[..], ptr), Unrolled(y[..], ptr)))
    {
      hide Dot, Wrap16, Unrolled, PartialSumsFit;
      CoefficientCount();
      FiltersFit(Unrolled(x[..], ptr));
      FiltersFit(Unrolled(y[..], ptr));
      var sumodd := VecCircularDotProdi16(x, QMF_COEFFS_FWD, 12, ptr);
      var sumeven := VecCircularDotProdi16(y, QMF_COEFFS_REV, 12, ptr);
      xlow := Wrap16((sumeven + sumodd) / 16384);
      xhigh := Wrap16((sumeven - sumodd) / 16384);
    }

    /** Both sub-bands, and the code. */
    method Code(xlow: int16, xhigh: int16) returns (code: uint8)
      requires Valid()
      modifies low.Repr, high.Repr
      ensures Encoded(Pair(low.Snapshot(), high.Snapshot()), code)
           == EncodeOne(old(Value().bands), cfg.bits, cfg.eightK, xlow, xhigh)
    {
      hide LowCode, HighIndex, EncoderLow, EncoderHigh;
      var ilow := EncodeLow(low, xlow);
      if cfg.eightK {
        code := (0xC0 + ilow) / Drop(cfg.bits);
      } else {
        var ihigh := EncodeHigh(high, xhigh);
        code := (ihigh * 64 + ilow) / Drop(cfg.bits);
      }
    }

    /** Output of one code: at most one byte.  The pending bits lie below the shift, so
        that the operands of the C `|` share no bit. */
    method Emit(code: uint8) returns (bytes: seq<uint8>)
      requires Valid() && Fits(code, cfg.bits)
      modifies `outBuffer, `outBits
      ensures Valid()
      ensures if cfg.packed then Packed(Pending(outBuffer, outBits), bytes) == PackOne(old(Value().out), code, cfg.bits)
              else bytes == [code] && outBuffer == old(outBuffer) && outBits == old(outBits)
    {
      hide Bits, Pending.Stream, Fits, BandState.Valid;
      if cfg.packed {
        PackOneStream(Pending(outBuffer, outBits), code, cfg.bits);
        ShlGrows(code, outBits);
        outBuffer := outBuffer + Shl(code, outBits);
        outBits := outBits + cfg.bits;
        bytes := [];
        if outBits >= 8 {
          bytes := [outBuffer % 256];
          outBits := outBits - 8;
          outBuffer := outBuffer / 256;
        }
      } else {
        bytes := [code];
      }
    }

    method Turn(amp: seq<int16>, j: nat) returns (bytes: seq<uint8>, next: nat)
      requires Valid() && j + cfg.Stride() <= |amp|
      modifies Repr
      ensures Valid() && next == j + cfg.Stride()
      ensures Emission(Value(), bytes) == EncodeTurn(cfg, old(Value()), amp[j..])
    {
      hide SplitBands, EncodeOne, PackOne;
      var xlow, xhigh;
      xlow, xhigh, next := Split(amp, j);
      var code := Code(xlow, xhigh);
      FitsWidth(code, cfg.bits);
      bytes := Emit(code);
    }

    /** g722_encode. */
    method Encode(amp: seq<int16>) returns (data: seq<uint8>)
      requires Valid() && cfg.Whole(|amp|)
      modifies Repr
      ensures Valid()
      ensures Emission(Value(), data) == EncodeAll(cfg, old(Value()), amp)
    {
      hide EncodeTurn, EncodeAll, Config.Whole, Config.Valid, Unrolled;
      data := [];
      var j := 0;
      ghost var goal := EncodeAll(cfg, Value(), amp);
      assert amp[0..] == amp;
      while j < |amp|
        invariant Valid() && j <= |amp| && cfg.Whole(|amp| - j)
        invariant goal == Emission(EncodeAll(cfg, Value(), amp[j..]).state, data + EncodeAll(cfg, Value(), amp[j..]).bytes)
        decreases |amp| - j
      {
        ghost var here, v := j, Value();
        cfg.WholeStep(|amp| - j);
        var bytes;
        bytes, j := Turn(amp, j);
        EncodeAllStep(cfg, v, amp[here..]);
        assert amp[here..][cfg.Stride()..] == amp[j..];
        Associate(data, bytes, EncodeAll(cfg, Value(), amp[j..]).bytes);
        data := data + bytes;
      }
      EncodeNothing(cfg, Value());
      assert amp[j..] == [];
    }
  }

  lemma CoefficientCount()
    ensures |QMF_COEFFS_FWD| == 12 == |QMF_COEFFS_REV|
  {
  }

  class Decoder {
    const cfg: Config
    const low: BandState
    const high: BandState
    const x: array<int16>
    const y: array<int16>
    var ptr: nat
    var inBuffer: nat
    var inBits: nat

    ghost const Repr: set<object> := {this, x, y} + low.Repr + high.Repr

    ghost predicate Valid()
      reads this
    {
      && cfg.Valid() && low.Valid() && high.Valid() && low.Repr !! high.Repr
      && x.Length == 12 == y.Length && x != y && ptr < 12
      && {this, x, y} !! low.Repr + high.Repr
      && Pending(inBuffer, inBits).Valid()
    }

    ghost function Value(): (v: DecoderValue)
      requires Valid()
      reads Repr
      ensures v.bands.Shaped()
    {
      DecoderValue(Pair(low.Snapshot(), high.Snapshot()), Unrolled(x[..], ptr), Unrolled(y[..], ptr),
                   Pending(inBuffer, inBits))
    }

    /** g722_decode_init. */
    constructor (rate: int, sampleRate8000: bool, packedOption: bool)
      ensures Valid() && fresh(Repr) && cfg == ConfigFor(rate, sampleRate8000, packedOption)
      ensures Value() == DecoderValue(START, seq(12, _ => 0), seq(12, _ => 0), EMPTY)
    {
      cfg := ConfigFor(rate, sampleRate8000, packedOption);
      low := new BandState(32);
      high := new BandState(8);
      x := new int16[12](_ => 0);
      y := new int16[12](_ => 0);
      ptr, inBuffer, inBits := 0, 0, 0;
      new;
      assert Unrolled(x[..], 0) == seq(12, _ => 0);
      assert Unrolled(y[..], 0) == seq(12, _ => 0);
    }

    /** The next code, fetching a byte when too few bits are pending; they lie below
        the shift. */
    method Unpack(data: seq<uint8>, j: nat) returns (code: nat, next: nat)
      requires Valid() && j < |data|
      modifies `inBuffer, `inBits
      ensures Valid()
      ensures if cfg.packed then
                var t := UnpackOne(old(Value().pending), data[j], cfg.bits);
                && t.state == Pending(inBuffer, inBits) && t.code == code && next == (if t.used then j + 1 else j)
              else next == j + 1 && code == data[j] && inBuffer == old(inBuffer) && inBits == old(inBits)
    {
      hide Bits, Pending.Stream, Fits, BandState.Valid;
      next := j;
      if cfg.packed {
        UnpackOneStream(Pending(inBuffer, inBits), data[next], cfg.bits);
        if inBits < cfg.bits {
          ShlGrows(data[next], inBits);
          inBuffer := inBuffer + Shl(data[next], inBits);
          next := next + 1;
          inBits := inBits + 8;
        }
        var modulus := if cfg.bits == 6 then 64 else 128;
        code := inBuffer % modulus;
        inBuffer := inBuffer / modulus;
        inBits := inBits - cfg.bits;
      } else {
        code := data[next];
        next := next + 1;
      }
    }

    /** Both sub-bands. */
    method Reconstruct(code: nat) returns (rlow: int16, rhigh: int16)
      requires Valid()
      modifies low.Repr, high.Repr
      ensures Decoded(Pair(low.Snapshot(), high.Snapshot()), rlow, rhigh)
           == DecodeOne(old(Value().bands), cfg.bits, cfg.eightK, code)
    {
      hide DecoderLow, DecoderHigh, LevelOf, Qm2, RilOf, Dequantized;
      rlow := DecodeLow(low, cfg.bits, code);
      rhigh := 0;
      if !cfg.eightK {
        rhigh := DecodeHigh(high, IhighOf(cfg.bits, code));
      }
    }

    /** The receive QMF, or the plain output of the other modes. */
    method Join(rlow: int16, rhigh: int16) returns (amp: seq<int16>)
      requires Valid()
      modifies x, y, `ptr
      ensures Valid()
      ensures var v := old(Value());
              var r := JoinBands(cfg, v, v.bands, v.pending, rlow, rhigh);
              amp == r.amp && Unrolled(x[..], ptr) == r.state.x && Unrolled(y[..], ptr) == r.state.y
    {
      if cfg.ituTestMode {
        amp := [Wrap16(rlow as int * 2), Wrap16(rhigh as int * 2)];
      } else if cfg.eightK {
        amp := [Wrap16(rlow as int * 2)];
      } else {
        amp := ReceiveQmf(Wrap16(rlow as int + rhigh as int), Wrap16(rlow as int - rhigh as int));
      }
    }

    method ReceiveQmf(sum: int16, difference: int16) returns (amp: seq<int16>)
      requires Valid()
      modifies x, y, `ptr
      ensures Valid()
      ensures Unrolled(x[..], ptr) == Shifted(Unrolled(old(x[..]), old(ptr)), sum)
      ensures Unrolled(y[..], ptr) == Shifted(Unrolled(old(y[..]), old(ptr)), difference)
      ensures amp == [Saturate(Dot(Unrolled(y[..], ptr), QMF_COEFFS_REV) / 2048),
                      Saturate(Dot(Unrolled(x[..], ptr), QMF_COEFFS_FWD) / 2048)]
    {
      hide Dot;
      ghost var x0, y0 := x[..], y[..];
      x[ptr] := sum;
      y[ptr] := difference;
      assert x[..] == x0[ptr := sum] && y[..] == y0[ptr := difference];
      UnrolledAfterWrite(x0, ptr, sum);
      UnrolledAfterWrite(y0, ptr, difference);
      ptr := ptr + 1;
      if ptr >= 12 { ptr := 0; }
      amp := ReceiveSums();
    }

    method ReceiveSums() returns (amp: seq<int16>)
      requires Valid()
      ensures amp == [Saturate(Dot(Unrolled(y[..], ptr), QMF_COEFFS_REV) / 2048),
                      Saturate(Dot(Unrolled(x[..], ptr), QMF_COEFFS_FWD) / 2048)]
    {
      hide Dot, Unrolled, PartialSumsFit;
      CoefficientCount();
      FiltersFit(Unrolled(x[..], ptr));
      FiltersFit(Unrolled(y[..], ptr));
      var first := VecCircularDotProdi16(y, QMF_COEFFS_REV, 12, ptr);
      var second := VecCircularDotProdi16(x, QMF_COEFFS_FWD, 12, ptr);
      amp := [Saturate(first / 2048), Saturate(second / 2048)];
    }

    method Turn(code: nat) returns (amp: seq<int16>)
      requires Valid()
      modifies low.Repr, high.Repr, x, y, `ptr
      ensures Valid()
      ensures var v := old(Value());
              Playback(Value(), amp) == DecodeTurn(cfg, v, code, v.pending)
    {
      hide DecodeOne, Dot;
      var rlow, rhigh := Reconstruct(code);
      amp := Join(rlow, rhigh);
    }

    /** g722_decode. */
    method Decode(data: seq<uint8>) returns (amp: seq<int16>)
      requires Valid()
      modifies Repr
      ensures Valid()
      ensures Playback(Value(), amp) == DecodeAll(cfg, old(Value()), data)
    {
      hide DecodeTurn, UnpackOne;
      amp := [];
      var j := 0;
      ghost var goal := DecodeAll(cfg, Value(), data);
      assert data[0..] == data;
      while j < |data|
        invariant Valid() && j <= |data|
        invariant goal == Playback(DecodeAll(cfg, Value(), data[j..]).state, amp + DecodeAll(cfg, Value(), data[j..]).amp)
        decreases |data| - j, inBits
      {
        ghost var here := j;
        ghost var v := Value();
        assert data[j..][0] == data[j] && data[j..][1..] == data[j + 1..];
        var code;
        code, j := Unpack(data, j);
        TurnIgnoresPending(cfg, v, Value(), code);
        var out := Turn(code);
        Associate(amp, out, DecodeAll(cfg, Value(), data[j..]).amp);
        amp := amp + out;
      }
    }
  }

  /** One decoding turn does not look at the pending bits. */
  lemma TurnIgnoresPending(cfg: Config, v: DecoderValue, w: DecoderValue, code: nat)
    requires v.bands.Shaped() && w == v.(pending := w.pending)
    ensures DecodeTurn(cfg, v, code, w.pending) == DecodeTurn(cfg, w, code, w.pending)
  {
    hide DecodeOne, Dot;
  }
}
