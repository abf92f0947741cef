/** The GSM 06.10 coder and decoder as the source runs them, frame after frame on
    one state object (gsm0610_encode.c, gsm0610_decode.c), proved to compute the
    functions of `GsmLockstep`. */
module GsmCodec {
  import opened Saturated
  import opened GsmState
  import opened Apcm
  import opened Rpe
  import opened LongTerm
  import opened GsmFrame
  import opened GsmLockstep
  import Autocorrelation
  import opened Postprocess
  import LogAreaRatio
  import Preprocess
  import ShortTerm
  import VoipPacking
  import Wav49Packing

  // ---- the coder ----

  /** What holds between calls of the coder. */
  predicate CoderReady(s: Gsm0610State)
    reads s, s.e
  {
    s.Shaped() && ZeroMargins(s.e[..])
  }

  ghost function CoderOf(s: Gsm0610State): (m: Coder)
    requires s.Shaped()
    reads s, s.u, s.dp0
    ensures m.filter.Valid()
  {
    Coder(Preprocess.MemoryOf(s), ShortTerm.AnalysisState(s), s.dp0[..120])
  }

  /** A fresh state stands at the start of the coder's and of the decoder's runs. */
  method Gsm0610Init(packing: Packing) returns (s: Gsm0610State)
    ensures fresh(s) && fresh(s.Repr)
    ensures CoderReady(s) && CoderOf(s) == CODER_RESET
    ensures DecoderReady(s) && DecoderOf(s) == DECODER_RESET
    ensures s.packing == packing
  {
    s := new Gsm0610State(packing);
    assert s.dp0[..120] == CODER_RESET.h && s.u[..] == ShortTerm.SILENCE && s.v[..8] == ShortTerm.SILENCE;
  }

  /** One of the four turns of the coder's loop.  `at` is where the source's `dp` and
      `dpp` point: the history is the 120 samples before it. */
  method EncodeSubFrame(d: Sub40, dp0: array<int16>, at: nat, e: array<int16>) returns (s: SubFrame)
    requires dp0.Length == 280 && 120 <= at <= 240 && ZeroMargins(e[..]) && e != dp0
    modifies dp0, e
    ensures ZeroMargins(e[..])
    ensures s == CodeSub(d, old(dp0[at - 120..at])) && Sendable(s)
    ensures dp0[..at] == old(dp0[..at]) && dp0[at + 40..] == old(dp0[at + 40..])
    ensures dp0[at..at + 40] == RestoredResidual(old(dp0[at - 120..at]), s.Nc, s)
  {
    hide LtpOf, RpeCode, RpeDecode, PredictionAt, Add16;
    ghost var h: History := dp0[at - 120..at];
    ghost var e0 := e[..];
    var Nc, bc := LongTermPredictor(d, dp0, at, e);
    ghost var prediction: Sub40 := dp0[at..at + 40];
    MarginsKept(e0, e[..]);
    var codes := new int16[13];
    var xmaxc, Mc := RpeEncoding(e, codes);
    s := SubFrame(Nc, bc, Mc, xmaxc, codes[..]);
    assert s == CodeSub(d, h);
    ghost var ep: Sub40 := e[5..45];
    assert ep == RpeDecode(s.Rpe());
    RebuildInPlace(dp0, at, e);
    assert forall k :: 0 <= k < 40 ==> ep[k] == e[5 + k] && prediction[k] == PredictionAt(h, Parameters(Nc, bc), k);
    assert dp0[at..at + 40] == Rebuild(h, Parameters(Nc, bc), ep);
  }

  /** `dp[i] = saturated_add16(s->e[5 + i], dpp[i])`, where `dp` and `dpp` are the same
      place. */
  method RebuildInPlace(dp0: array<int16>, at: nat, e: array<int16>)
    requires at + 40 <= dp0.Length && e.Length == 50 && e != dp0
    modifies dp0
    ensures dp0[..at] == old(dp0[..at]) && dp0[at + 40..] == old(dp0[at + 40..])
    ensures forall i :: at <= i < at + 40 ==> dp0[i] == Add16(e[5 + i - at], old(dp0[i]))
  {
    hide Add16;
    for i := 0 to 40
      invariant dp0[..at] == old(dp0[..at]) && dp0[at + 40..] == old(dp0[at + 40..])
      invariant forall k :: at <= k < at + i ==> dp0[k] == Add16(e[5 + k - at], old(dp0[k]))
      invariant forall k :: at + i <= k < at + 40 ==> dp0[k] == old(dp0[k])
    {
      dp0[at + i] := Add16(e[5 + i], dp0[at + i]);
    }
  }

  /** The coder's loop over the sub-frames of the residual `d`, and the final move of
      the last 120 samples to the front. */
  method EncodeSubFrames(s: Gsm0610State, d: seq<int16>) returns (sub: seq<SubFrame>)
    requires CoderReady(s) && |d| == 160
    modifies s.dp0, s.e
    ensures CoderReady(s)
    ensures sub == CodeSubs(old(s.dp0[..120]), d, 4).sub && s.dp0[..120] == CodeSubs(old(s.dp0[..120]), d, 4).h
  {
    hide CodeSub, RestoredResidual, ZeroMargins;
    ghost var h: History := s.dp0[..120];
    sub := [];
    var at := 120;
    for k := 0 to 4
      invariant at == 120 + 40 * k && CoderReady(s)
      invariant sub == CodeSubs(h, d, k).sub && s.dp0[at - 120..at] == CodeSubs(h, d, k).h
    {
      ghost var hk: History := s.dp0[at - 120..at];
      var one := EncodeSubFrame(d[40 * k..40 * (k + 1)], s.dp0, at, s.e);
      assert s.dp0[at - 80..at] == s.dp0[..at][at - 80..at] == hk[40..];
      assert s.dp0[at - 80..at + 40] == s.dp0[at - 80..at] + s.dp0[at..at + 40];
      sub := sub + [one];
      at := at + 40;
    }
    MoveDown(s.dp0);
  }

  /** `memcpy(s->dp0, s->dp0 + GSM0610_FRAME_LEN, 120)`. */
  method MoveDown(dp0: array<int16>)
    requires dp0.Length == 280
    modifies dp0
    ensures dp0[..120] == old(dp0[160..280])
  {
    for i := 0 to 120
      invariant forall k :: 0 <= k < i ==> dp0[k] == old(dp0[k + 160])
      invariant forall k :: i <= k < 280 ==> dp0[k] == old(dp0[k])
    {
      dp0[i] := dp0[i + 160];
    }
  }

  /** encode_a_frame. */
  method EncodeAFrame(s: Gsm0610State, amp: seq<int16>) returns (f: Frame)
    requires CoderReady(s) && |amp| == 160
    modifies s`z1, s`L_z2, s`mp, s`LARpp, s`j, s.u, s.dp0, s.e
    ensures CoderReady(s) && f.InRange()
    ensures var coded := CodeFrame(old(CoderOf(s)), amp);
            f == coded.frame && CoderOf(s) == coded.coder
  {
    hide Preprocess.Run, LogAreaRatio.LpcOf, ShortTerm.AnalysisStep, Autocorrelation.RescaledFrame, CodeSubs, ZeroMargins;
    hide ShortTerm.DecodeLogAreaRatios;
    ghost var h: History := s.dp0[..120];
    ghost var m := CoderOf(s);
    var so := new int16[160];
    Preprocess.GsmPreprocess(s, amp, so);
    var LARc := new int16[8];
    LogAreaRatio.LpcAnalysis(so, LARc);
    var larc: Vec8 := LARc[..];
    ShortTerm.ShortTermAnalysisFilter(s, larc, so);
    assert s.dp0[..120] == h;
    var sub := EncodeSubFrames(s, so[..]);
    f := Frame(larc, sub);
  }

  // ---- the decoder ----

  predicate DecoderReady(s: Gsm0610State)
    reads s
  {
    s.Shaped() && 40 <= s.nrp <= 120
  }

  ghost function DecoderOf(s: Gsm0610State): (m: Decoder)
    requires DecoderReady(s)
    reads s, s.v, s.dp0
    ensures m.Valid()
  {
    Decoder(ShortTerm.SynthesisState(s), s.dp0[..120], s.nrp, s.msr)
  }

  /** The decoder's loop over the sub-frames; the residual goes to `wt`. */
  method DecodeSubFrames(s: Gsm0610State, sub: seq<ValidSub>, wt: array<int16>)
    requires DecoderReady(s) && |sub| == 4 && wt.Length == 160 && wt !in s.Repr
    modifies s`nrp, s.dp0, wt
    ensures DecoderReady(s)
    ensures var r := DecodeSubs(old(s.dp0[..120]), old(s.nrp), sub, 4);
            wt[..] == r.wt && s.dp0[..120] == r.h && s.nrp == r.nrp
  {
    hide Rebuild, RpeDecode, Advance, SubFrame.InRange;
    ghost var h: History, nrp := s.dp0[..120], s.nrp;
    var erp := new int16[40];
    for j := 0 to 4
      invariant DecoderReady(s)
      invariant wt[..40 * j] == DecodeSubs(h, nrp, sub, j).wt
      invariant s.dp0[..120] == DecodeSubs(h, nrp, sub, j).h && s.nrp == DecodeSubs(h, nrp, sub, j).nrp
    {
      var f: ValidSub := sub[j];
      ghost var hj: History := s.dp0[..120];
      DecodeSubFrame(s, f, erp);
      ghost var before := wt[..40 * j];
      CopyOut(s.dp0, wt, 40 * j);
      assert wt[..40 * (j + 1)] == before + wt[40 * j..40 * j + 40];
    }
    assert wt[..160] == wt[..];
  }

  method DecodeSubFrame(s: Gsm0610State, f: ValidSub, erp: array<int16>)
    requires DecoderReady(s) && erp.Length == 40 && erp !in s.Repr
    modifies s`nrp, s.dp0, erp
    ensures DecoderReady(s) && s.nrp == LagUsed(old(s.nrp), f.Nc)
    ensures var drp := RestoredResidual(old(s.dp0[..120]), s.nrp, f);
            s.dp0[..120] == Advance(old(s.dp0[..120]), drp) && s.dp0[120..160] == drp
  {
    hide Rebuild, RpeDecode, Advance;
    RpeDecoding(f.xmaxc, f.Mc, f.xMc, erp);
    LongTermSynthesisFiltering(s, f.Nc, f.bc, erp[..]);
  }

  /** `wt[j*40 + k] = drp[k]`. */
  method CopyOut(dp0: array<int16>, wt: array<int16>, to: nat)
    requires dp0.Length == 280 && wt != dp0 && to + 40 <= wt.Length
    modifies wt
    ensures wt[to..to + 40] == dp0[120..160]
    ensures wt[..to] == old(wt[..to])
  {
    for k := 0 to 40
      invariant forall i :: to <= i < to + k ==> wt[i] == dp0[120 + i - to]
      invariant wt[..to] == old(wt[..to])
    {
      wt[to + k] := dp0[120 + k];
    }
  }

  /** postprocessing. */
  method Postprocessing(s: Gsm0610State, amp: array<int16>)
    requires amp.Length == 160 && amp !in s.Repr
    modifies s`msr, amp
    ensures Emphasis(s.msr, amp[..]) == Postprocessed(old(s.msr), old(amp[..]))
  {
    hide MultR, Add16, Truncated;
    ghost var xs := amp[..];
    ghost var m := s.msr;
    var msr := s.msr;
    for k := 0 to 160
      invariant Emphasis(msr, amp[..k]) == Postprocessed(m, xs[..k])
      invariant amp[k..] == xs[k..]
    {
      assert amp[k] == amp[k..][0] == xs[k];
      assert xs[..k + 1][..k] == xs[..k];
      var tmp := MultR(msr, 28180);
      msr := Add16(amp[k], tmp);
      amp[k] := Truncated(Add16(msr, msr));
      assert amp[k + 1..] == xs[k..][1..];
    }
    assert amp[..160] == amp[..] && xs[..160] == xs;
    s.msr := msr;
  }

  /** decode_a_frame. */
  method DecodeAFrame(s: Gsm0610State, f: ValidFrame, amp: array<int16>)
    requires DecoderReady(s) && amp.Length == 160 && amp !in s.Repr
    modifies s`nrp, s`msr, s`LARpp, s`j, s.v, s.dp0, amp
    ensures DecoderReady(s)
    ensures DecodedFrame(DecoderOf(s), amp[..]) == DecodeFrame(old(DecoderOf(s)), f)
  {
    hide DecodeSubs, Postprocessed, ShortTerm.SynthesisStep, ShortTerm.DecodeLogAreaRatios;
    ghost var v: Vec8 := s.v[..8];
    var wt := new int16[160];
    DecodeSubFrames(s, f.sub, wt);
    assert s.v[..8] == v;
    ghost var h: History := s.dp0[..120];
    ShortTerm.ShortTermSynthesisFilter(s, f.LARc, wt, amp);
    ghost var filter := ShortTerm.SynthesisState(s);
    Postprocessing(s, amp);
    assert ShortTerm.SynthesisState(s) == filter && s.dp0[..120] == h;
  }

  // ---- streams ----

  function FrameLength(packing: Packing): nat {
    match packing
    case Wav49 => 320
    case Voip => 160
  }

  function BlockLength(packing: Packing): nat {
    match packing
    case Wav49 => 65
    case Voip => 33
  }

  /** The coder has coded `n` frames of `amp`, starting from `m`, into `code`. */
  ghost predicate HasCoded(s: Gsm0610State, m: Coder, amp: seq<int16>, n: nat, code: seq<uint8>)
    reads s, s.u, s.dp0, s.e
  {
    && CoderReady(s) && m.filter.Valid() && 160 * n <= |amp|
    && Sent(s.packing, code, CodeStream(m, amp, n).frames)
    && CoderOf(s) == CodeStream(m, amp, n).coder
  }

  /** The next frame of a stream. */
  method NextFrame(s: Gsm0610State, amp: seq<int16>, n: nat, ghost m: Coder) returns (f: Frame)
    requires CoderReady(s) && m.filter.Valid() && 160 * n + 160 <= |amp|
    requires CoderOf(s) == CodeStream(m, amp, n).coder
    modifies s`z1, s`L_z2, s`mp, s`LARpp, s`j, s.u, s.dp0, s.e
    ensures CoderReady(s) && f.InRange() && f.Complete()
    ensures CoderOf(s) == CodeStream(m, amp, n + 1).coder
    ensures CodeStream(m, amp, n + 1).frames == CodeStream(m, amp, n).frames + [f]
  {
    hide CoderReady, CoderOf, CodeFrame, CodeStream, Frame.InRange;
    f := EncodeAFrame(s, amp[160 * n..160 * n + 160]);
    CodeOneMore(m, amp, n + 1);
    CompleteFrame(f);
  }

  method EncodePair(s: Gsm0610State, amp: seq<int16>, n: nat, ghost m: Coder, code0: seq<uint8>) returns (code: seq<uint8>)
    requires s.packing == Wav49 && 160 * n + 320 <= |amp| && HasCoded(s, m, amp, n, code0)
    modifies s`z1, s`L_z2, s`mp, s`LARpp, s`j, s.u, s.dp0, s.e
    ensures HasCoded(s, m, amp, n + 2, code)
  {
    hide CoderReady, CoderOf, CodeStream, Sent, Frame.InRange, Wav49Packing.Carries, Frame.Complete;
    var frame := NextFrame(s, amp, n, m);
    var second := NextFrame(s, amp, n + 1, m);
    var c := new uint8[65];
    var bytes := Wav49Packing.Gsm0610PackWav49(c, frame, second);
    SendPair(code0, CodeStream(m, amp, n).frames, c[..65], frame, second);
    assert CodeStream(m, amp, n + 2).frames == CodeStream(m, amp, n).frames + [frame, second];
    code := code0 + c[..bytes];
  }

  method EncodeSingle(s: Gsm0610State, amp: seq<int16>, n: nat, ghost m: Coder, code0: seq<uint8>) returns (code: seq<uint8>)
    requires s.packing == Voip && 160 * n + 160 <= |amp| && HasCoded(s, m, amp, n, code0)
    modifies s`z1, s`L_z2, s`mp, s`LARpp, s`j, s.u, s.dp0, s.e
    ensures HasCoded(s, m, amp, n + 1, code)
  {
    hide CoderReady, CoderOf, CodeStream, Sent, Frame.InRange, VoipPacking.PackVoip;
    var frame := NextFrame(s, amp, n, m);
    var c := new uint8[33];
    var bytes := VoipPacking.Gsm0610PackVoip(c, frame);
    SendOne(code0, CodeStream(m, amp, n).frames, c[..33], frame);
    code := code0 + c[..bytes];
  }

  /** gsm0610_encode: whole blocks of speech, packed as the state says. */
  method Gsm0610Encode(s: Gsm0610State, amp: seq<int16>) returns (code: seq<uint8>)
    requires CoderReady(s) && |amp| % FrameLength(s.packing) == 0
    modifies s`z1, s`L_z2, s`mp, s`LARpp, s`j, s.u, s.dp0, s.e
    ensures CoderReady(s)
    ensures var run := CodeStream(old(CoderOf(s)), amp, |amp| / 160);
            Sent(s.packing, code, run.frames) && CoderOf(s) == run.coder
  {
    hide CodeStream, Sent, CoderOf, CodeFrame, Frame.InRange, ZeroMargins;
    ghost var m := CoderOf(s);
    NothingCoded(m, amp, s.packing);
    code := [];
    var i := 0;
    ghost var blocks := 0;
    while i < |amp|
      invariant i == (if s.packing.Wav49? then 320 * blocks else 160 * blocks) && i <= |amp|
      invariant HasCoded(s, m, amp, i / 160, code)
    {
      match s.packing {
        case Wav49 =>
          code := EncodePair(s, amp, i / 160, m, code);
          i := i + 160;
        case Voip =>
          code := EncodeSingle(s, amp, i / 160, m, code);
      }
      i := i + 160;
      blocks := blocks + 1;
    }
  }

  lemma NothingCoded(m: Coder, amp: seq<int16>, packing: Packing)
    requires m.filter.Valid()
    ensures CodeStream(m, amp, 0) == CodedStream(m, []) && Sent(packing, [], [])
  {
    hide CodeFrame, VoipPacking.PackVoip, PairAt;
  }

  lemma SendOne(code: seq<uint8>, frames: seq<ValidFrame>, block: seq<uint8>, f: ValidFrame)
    requires Sent(Voip, code, frames) && block == VoipPacking.PackVoip(f)
    ensures Sent(Voip, code + block, frames + [f])
  {
    hide VoipPacking.PackVoip, SentVoip;
    OneMoreVoip(code, frames, block, f);
  }

  lemma SendPair(code: seq<uint8>, frames: seq<ValidFrame>, block: seq<uint8>, f0: ValidFrame, f1: ValidFrame)
    requires Sent(Wav49, code, frames) && Wav49Packing.Carries(block, f0, f1)
    ensures Sent(Wav49, code + block, frames + [f0, f1])
  {
    hide Wav49Packing.Carries, InPairs, Frame.InRange;
    BlockLengthIs65(block, f0, f1);
    LengthOfPairs(code, frames, |code| / 65);
    var n := |code| / 65;
    OneMorePair(code, frames, n, block, f0, f1);
    assert |code + block| / 65 == n + 1;
  }

  // ---- decoding a stream ----

  /** The decoder has decoded `frames`, which is what `code` holds, into `amp`. */
  ghost predicate HasDecoded(s: Gsm0610State, m: Decoder, code: seq<uint8>, frames: seq<ValidFrame>, amp: seq<int16>)
    reads s, s.v, s.dp0
  {
    && DecoderReady(s) && m.Valid() && Received(s.packing, code, frames)
    && DecodedStream(DecoderOf(s), amp) == DecodeStream(m, frames)
  }

  method DecodeNext(s: Gsm0610State, f: ValidFrame, amp0: seq<int16>, ghost m: Decoder, ghost frames: seq<ValidFrame>)
    returns (amp: seq<int16>)
    requires DecoderReady(s) && m.Valid() && DecodedStream(DecoderOf(s), amp0) == DecodeStream(m, frames)
    modifies s`nrp, s`msr, s`LARpp, s`j, s.v, s.dp0
    ensures DecoderReady(s) && DecodedStream(DecoderOf(s), amp) == DecodeStream(m, frames + [f])
  {
    hide DecoderOf, DecodeFrame, DecodeStream, Frame.InRange;
    var out := new int16[160];
    DecodeAFrame(s, f, out);
    amp := amp0 + out[..];
    DecodeOneMore(m, frames, f);
  }

  method DecodePair(s: Gsm0610State, block: seq<uint8>, amp0: seq<int16>, ghost m: Decoder,
        ghost code: seq<uint8>, ghost frames0: seq<ValidFrame>)
    returns (amp: seq<int16>, ghost frames: seq<ValidFrame>)
    requires s.packing == Wav49 && |block| == 65 && HasDecoded(s, m, code, frames0, amp0)
    modifies s`nrp, s`msr, s`LARpp, s`j, s.v, s.dp0
    ensures HasDecoded(s, m, code + block, frames, amp)
  {
    hide DecoderOf, DecodeStream, Received, Frame.InRange, Wav49Packing.Carries;
    assert block[..65] == block;
    var frame, second, bytes := Wav49Packing.Gsm0610UnpackWav49(block);
    amp := DecodeNext(s, frame, amp0, m, frames0);
    amp := DecodeNext(s, second, amp, m, frames0 + [frame]);
    frames := frames0 + [frame, second];
    assert frames == (frames0 + [frame]) + [second];
    ReceivePair(code, frames0, block, frame, second);
  }

  method DecodeSingle(s: Gsm0610State, block: seq<uint8>, amp0: seq<int16>, ghost m: Decoder,
        ghost code: seq<uint8>, ghost frames0: seq<ValidFrame>)
    returns (amp: seq<int16>, ghost frames: seq<ValidFrame>)
    requires s.packing == Voip && |block| == 33 && HasDecoded(s, m, code, frames0, amp0)
    modifies s`nrp, s`msr, s`LARpp, s`j, s.v, s.dp0
    ensures HasDecoded(s, m, code + block, frames, amp)
  {
    hide DecoderOf, DecodeStream, Received, Frame.InRange, VoipPacking.UnpackVoip;
    assert block[..33] == block;
    var frame, bytes := VoipPacking.Gsm0610UnpackVoip(block);
    amp := DecodeNext(s, frame, amp0, m, frames0);
    frames := frames0 + [frame];
    ReceiveOne(code, frames0, block, frame);
  }

  predicate WholeBlocks(packing: Packing, length: nat) {
    length % BlockLength(packing) == 0
  }

  lemma OneBlockLess(packing: Packing, length: nat)
    requires WholeBlocks(packing, length) && length > 0
    ensures length >= BlockLength(packing) && WholeBlocks(packing, length - BlockLength(packing))
  {
  }

  /** One turn of the decoding loop, at position `i`. */
  method DecodeBlock(s: Gsm0610State, code: seq<uint8>, i: nat, amp0: seq<int16>, ghost m: Decoder,
        ghost frames0: seq<ValidFrame>)
    returns (amp: seq<int16>, bytes: nat, ghost frames: seq<ValidFrame>)
    requires i + BlockLength(s.packing) <= |code| && HasDecoded(s, m, code[..i], frames0, amp0)
    modifies s`nrp, s`msr, s`LARpp, s`j, s.v, s.dp0
    ensures bytes == BlockLength(s.packing) && HasDecoded(s, m, code[..i + bytes], frames, amp)
  {
    hide HasDecoded;
    bytes := BlockLength(s.packing);
    var block := code[i..i + bytes];
    assert code[..i] + block == code[..i + bytes];
    match s.packing {
      case Wav49 => amp, frames := DecodePair(s, block, amp0, m, code[..i], frames0);
      case Voip => amp, frames := DecodeSingle(s, block, amp0, m, code[..i], frames0);
    }
  }

  /** gsm0610_decode: whole blocks. */
  method Gsm0610Decode(s: Gsm0610State, code: seq<uint8>) returns (amp: seq<int16>, ghost frames: seq<ValidFrame>)
    requires DecoderReady(s) && WholeBlocks(s.packing, |code|)
    modifies s`nrp, s`msr, s`LARpp, s`j, s.v, s.dp0
    ensures DecoderReady(s) && Received(s.packing, code, frames)
    ensures DecodedStream(DecoderOf(s), amp) == DecodeStream(old(DecoderOf(s)), frames)
  {
    hide DecodeStream, Received, DecoderOf, DecodeFrame, Frame.InRange, BlockLength, WholeBlocks;
    ghost var m := DecoderOf(s);
    NothingDecoded(m, s.packing);
    amp, frames := [], [];
    var i := 0;
    assert code[..0] == [];
    while i < |code|
      invariant i <= |code| && WholeBlocks(s.packing, |code| - i)
      invariant HasDecoded(s, m, code[..i], frames, amp)
      decreases |code| - i
    {
      OneBlockLess(s.packing, |code| - i);
      var bytes;
      amp, bytes, frames := DecodeBlock(s, code, i, amp, m, frames);
      SomeBytes(s.packing);
      i := i + bytes;
    }
    assert code[..|code|] == code;
  }

  lemma SomeBytes(packing: Packing)
    ensures BlockLength(packing) > 0
  {
  }

  lemma NothingDecoded(m: Decoder, packing: Packing)
    requires m.Valid()
    ensures DecodeStream(m, []) == DecodedStream(m, []) && Received(packing, [], [])
  {
    hide DecodeFrame, VoipPacking.UnpackVoip, PairAt;
  }

  lemma ReceiveOne(code: seq<uint8>, frames: seq<ValidFrame>, block: seq<uint8>, f: ValidFrame)
    requires Received(Voip, code, frames) && |block| == 33 && f == VoipPacking.UnpackVoip(block)
    ensures Received(Voip, code + block, frames + [f])
  {
    hide VoipPacking.UnpackVoip, ReceivedVoip;
    OneMoreVoip(code, frames, block, f);
  }

  lemma ReceivePair(code: seq<uint8>, frames: seq<ValidFrame>, block: seq<uint8>, f0: ValidFrame, f1: ValidFrame)
    requires Received(Wav49, code, frames) && Wav49Packing.Carries(block, f0, f1)
    ensures Received(Wav49, code + block, frames + [f0, f1])
  {
    SendPair(code, frames, block, f0, f1);
  }
}
