/** The GSM 06.10 coder and decoder as functions on values, and the theorem that
    ties them together: whatever speech is coded and however it is sent, the
    decoder's memory of the reconstructed residual and of the log-area ratios is
    that of the coder. */
module GsmLockstep {
  import opened Saturated
  import opened GsmState
  import opened Apcm
  import opened Rpe
  import opened LongTerm
  import opened GsmFrame
  import Autocorrelation
  import opened Postprocess
  import LogAreaRatio
  import Preprocess
  import ShortTerm
  import VoipPacking
  import Wav49Packing

  // ---- the coder ----

  /** What the coder keeps between frames. */
  datatype Coder = Coder(pre: Preprocess.Memory, filter: ShortTerm.Filter, h: History)

  const CODER_RESET: Coder := Coder(Preprocess.RESET, ShortTerm.RESET, seq(120, _ => 0))

  /** In range, with a lag that the decoder accepts. */
  predicate Sendable(s: SubFrame) {
    s.InRange() && 40 <= s.Nc <= 120
  }

  const QUIET_SUB: SubFrame := SubFrame(40, 0, 0, 0, [0, 0, 0, 0, 0, 0, 0, 0, 0, 0, 0, 0, 0])
  const QUIET_FRAME: Frame := Frame(ShortTerm.SILENCE, [QUIET_SUB, QUIET_SUB, QUIET_SUB, QUIET_SUB])

  type ValidSub = s: SubFrame | s.InRange() witness QUIET_SUB
  type ValidFrame = f: Frame | f.InRange() witness QUIET_FRAME
  type SentSub = s: SubFrame | Sendable(s) witness QUIET_SUB

  function CodeSub(d: Sub40, h: History): SentSub {
    hide LtpOf, Prediction, Residual, RpeCode;
    var p := LtpOf(d, h);
    var c := RpeCode(Residual(d, Prediction(h, p)));
    SubFrame(p.nc, p.bc, c.mc, c.block.xmaxc, c.block.codes)
  }

  /** The residual that both ends reconstruct from a sub-frame sent with lag `lag`. */
  function RestoredResidual(h: History, lag: int16, s: ValidSub): Sub40
    requires 40 <= lag <= 120
  {
    Rebuild(h, Parameters(lag, s.bc), RpeDecode(s.Rpe()))
  }

  /** The sub-frame `s`, sent for the short-term residual `d` over the history `h`: what both
      ends restore differs from `d` by no more than the error of the RPE quantizer at that
      sample, but for what the subtraction of the prediction lost to saturation. */
  predicate RestoredClose(d: Sub40, h: History, s: SentSub, k: nat)
    requires k < 40
  {
    hide LtpOf, Prediction, Residual, RpeCode, RpeDecode, Rebuild;
    var prediction := Prediction(h, Parameters(s.Nc, s.bc));
    var e := Residual(d, prediction);
    && Parameters(s.Nc, s.bc) == LtpOf(d, h) && Coded(s.Mc, Block(s.xmaxc, s.xMc)) == RpeCode(e)
    && Abs(RestoredResidual(h, s.Nc, s)[k] as int - d[k] as int)
       <= Abs(RpeDecode(s.Rpe())[k] as int - e[k] as int) + Abs(Lost(d, prediction, k))
  }

  lemma RestoredIsClose(d: Sub40, h: History, k: nat)
    requires k < 40
    ensures RestoredClose(d, h, CodeSub(d, h), k)
  {
    hide LtpOf, Prediction, Residual, RpeCode, RpeDecode, Rebuild, Lost;
    var s := CodeSub(d, h);
    RebuiltIsClose(d, h, Parameters(s.Nc, s.bc), RpeDecode(s.Rpe()), k);
  }

  datatype CodedSubs = CodedSubs(h: History, sub: seq<SentSub>)

  /** The first `n` sub-frames of the short-term residual `d`. */
  function CodeSubs(h: History, d: seq<int16>, n: nat): (r: CodedSubs)
    requires |d| == 160 && n <= 4
    ensures |r.sub| == n
  {
    hide CodeSub, RestoredResidual, Advance, SubFrame.InRange;
    if n == 0 then CodedSubs(h, [])
    else
      var before := CodeSubs(h, d, n - 1);
      var s := CodeSub(d[40 * (n - 1)..40 * n], before.h);
      CodedSubs(Advance(before.h, RestoredResidual(before.h, s.Nc, s)), before.sub + [s])
  }

  datatype CodedFrame = CodedFrame(coder: Coder, frame: ValidFrame)

  /** Every frame that the coder can produce has all its parameters in range. */
  function CodeFrame(m: Coder, pcm: seq<int16>): (r: CodedFrame)
    requires m.filter.Valid() && |pcm| == 160
    ensures r.coder.filter.Valid()
  {
    hide LogAreaRatio.LarcInRange, SubFrame.InRange;
    hide ShortTerm.AnalysisStep, LogAreaRatio.LpcOf, Autocorrelation.RescaledFrame, Preprocess.Run, CodeSubs,
          ShortTerm.DecodeLogAreaRatios;
    var pre := Preprocess.Run(m.pre, pcm);
    var larc := LogAreaRatio.LpcOf(pre.out);
    var residual := ShortTerm.AnalysisStep(m.filter, larc, Autocorrelation.RescaledFrame(pre.out));
    var subs := CodeSubs(m.h, residual.out, 4);
    CodedFrame(Coder(pre.memory, residual.state, subs.h), Frame(larc, subs.sub))
  }

  datatype CodedStream = CodedStream(coder: Coder, frames: seq<ValidFrame>)

  /** The first `n` frames of a stream of speech. */
  function CodeStream(m: Coder, pcm: seq<int16>, n: nat): (r: CodedStream)
    requires m.filter.Valid() && 160 * n <= |pcm|
    ensures r.coder.filter.Valid() && |r.frames| == n
  {
    hide CodeFrame;
    if n == 0 then CodedStream(m, [])
    else
      var before := CodeStream(m, pcm, n - 1);
      var last := CodeFrame(before.coder, pcm[160 * (n - 1)..160 * n]);
      CodedStream(last.coder, before.frames + [last.frame])
  }

  // ---- the decoder ----

  datatype Decoder = Decoder(filter: ShortTerm.Filter, h: History, nrp: int16, msr: int16) {
    predicate Valid() {
      filter.Valid() && 40 <= nrp <= 120
    }
  }

  const DECODER_RESET: Decoder := Decoder(ShortTerm.RESET, seq(120, _ => 0), 40, 0)

  /** A lag out of range is replaced by the last valid one. */
  function LagUsed(nrp: int16, Nc: int16): int16 {
    if Nc < 40 || Nc > 120 then nrp else Nc
  }

  datatype DecodedSubs = DecodedSubs(h: History, nrp: int16, wt: seq<int16>)

  function DecodeSubs(h: History, nrp: int16, sub: seq<ValidSub>, n: nat): (r: DecodedSubs)
    requires n <= |sub| && 40 <= nrp <= 120
    ensures |r.wt| == 40 * n && 40 <= r.nrp <= 120
  {
    hide RestoredResidual, Advance, SubFrame.InRange;
    if n == 0 then DecodedSubs(h, nrp, [])
    else
      var before := DecodeSubs(h, nrp, sub, n - 1);
      var lag := LagUsed(before.nrp, sub[n - 1].Nc);
      var drp := RestoredResidual(before.h, lag, sub[n - 1]);
      DecodedSubs(Advance(before.h, drp), lag, before.wt + drp)
  }

  datatype DecodedFrame = DecodedFrame(decoder: Decoder, pcm: seq<int16>)

  function DecodeFrame(m: Decoder, f: ValidFrame): (r: DecodedFrame)
    requires m.Valid()
    ensures r.decoder.Valid() && |r.pcm| == 160
  {
    hide ShortTerm.SynthesisStep, DecodeSubs, Postprocessed, ShortTerm.DecodeLogAreaRatios;
    var subs := DecodeSubs(m.h, m.nrp, f.sub, 4);
    var speech := ShortTerm.SynthesisStep(m.filter, f.LARc, subs.wt);
    var post := Postprocessed(m.msr, speech.out);
    DecodedFrame(Decoder(speech.state, subs.h, subs.nrp, post.msr), post.out)
  }

  datatype DecodedStream = DecodedStream(decoder: Decoder, pcm: seq<int16>)

  function DecodeStream(m: Decoder, frames: seq<ValidFrame>): (r: DecodedStream)
    requires m.Valid()
    ensures r.decoder.Valid() && |r.pcm| == 160 * |frames|
  {
    hide DecodeFrame;
    if frames == [] then DecodedStream(m, [])
    else
      var before := DecodeStream(m, frames[..|frames| - 1]);
      var last := DecodeFrame(before.decoder, frames[|frames| - 1]);
      DecodedStream(last.decoder, before.pcm + last.pcm)
  }

  // ---- lockstep ----

  /** The two ends agree on everything that prediction depends on. */
  predicate Locked(c: Coder, d: Decoder) {
    && c.filter.Valid() && d.Valid()
    && c.h == d.h && c.filter.LARpp == d.filter.LARpp && c.filter.j == d.filter.j
  }

  lemma ResetIsLocked()
    ensures Locked(CODER_RESET, DECODER_RESET)
  {
  }

  predicate LagIsValid(Nc: int16) {
    40 <= Nc <= 120
  }

  /** The decoder goes on with the last valid lag that it has received, or with the one it
      started from. */
  lemma {:induction false} LastValidLag(h: History, nrp: int16, sub: seq<ValidSub>, n: nat)
    requires n <= |sub| && 40 <= nrp <= 120
    ensures var r := DecodeSubs(h, nrp, sub, n).nrp;
            || (r == nrp && forall i :: 0 <= i < n ==> !LagIsValid(sub[i].Nc))
            || (exists k :: 0 <= k < n && LagIsValid(sub[k].Nc) && r == sub[k].Nc
                            && forall i :: k < i < n ==> !LagIsValid(sub[i].Nc))
  {
    hide RestoredResidual;
    if n > 0 { LastValidLag(h, nrp, sub, n - 1); }
  }

  /** The decoder, although it shifts its history down after each sub-frame, and the
      coder, which moves along its buffer instead, restore the same residual. */
  lemma {:induction false} SubsLockstep(h: History, nrp: int16, d: seq<int16>, sub: seq<SentSub>, n: nat)
    requires |d| == 160 && n <= 4 && 40 <= nrp <= 120
    requires CodeSubs(h, d, 4).sub == sub
    ensures DecodeSubs(h, nrp, sub, n).h == CodeSubs(h, d, n).h
    ensures n > 0 ==> DecodeSubs(h, nrp, sub, n).nrp == sub[n - 1].Nc
  {
    hide CodeSub, RestoredResidual, Advance, SubFrame.InRange;
    if n > 0 {
      SubsLockstep(h, nrp, d, sub, n - 1);
      CodedPrefix(h, d, n, 4);
      assert CodeSubs(h, d, n).sub[n - 1] == sub[..n][n - 1] == sub[n - 1];
      assert Sendable(sub[n - 1]);
    }
  }

  lemma {:induction false} CodedPrefix(h: History, d: seq<int16>, n: nat, m: nat)
    requires |d| == 160 && n <= m <= 4
    ensures CodeSubs(h, d, m).sub[..n] == CodeSubs(h, d, n).sub
    decreases m - n
  {
    hide CodeSub, RestoredResidual, Advance;
    if n < m { CodedPrefix(h, d, n, m - 1); }
  }

  lemma FrameLockstep(c: Coder, d: Decoder, pcm: seq<int16>)
    requires Locked(c, d) && |pcm| == 160
    ensures var coded := CodeFrame(c, pcm);
            coded.frame.InRange() && Locked(coded.coder, DecodeFrame(d, coded.frame).decoder)
  {
    hide CodeSubs, DecodeSubs, Postprocessed, Preprocess.Run, LogAreaRatio.LpcOf, Autocorrelation.RescaledFrame;
    hide ShortTerm.DecodeLogAreaRatios, ShortTerm.AnalyseFrame, ShortTerm.SynthesiseFrame, SubFrame.InRange;
    var pre := Preprocess.Run(c.pre, pcm);
    var larc := LogAreaRatio.LpcOf(pre.out);
    var residual := ShortTerm.AnalysisStep(c.filter, larc, Autocorrelation.RescaledFrame(pre.out)).out;
    var sub := CodeSubs(c.h, residual, 4).sub;
    assert CodeFrame(c, pcm).frame == Frame(larc, sub);
    SubsLockstep(c.h, d.nrp, residual, sub, 4);
  }

  lemma DecodeOneMore(d: Decoder, frames: seq<ValidFrame>, f: ValidFrame)
    requires d.Valid()
    ensures var last := DecodeFrame(DecodeStream(d, frames).decoder, f);
            DecodeStream(d, frames + [f]) == DecodedStream(last.decoder, DecodeStream(d, frames).pcm + last.pcm)
  {
    hide DecodeFrame;
    assert (frames + [f])[..|frames|] == frames;
  }

  lemma CodeOneMore(c: Coder, pcm: seq<int16>, n: nat)
    requires c.filter.Valid() && 0 < n && 160 * n <= |pcm|
    ensures var before := CodeStream(c, pcm, n - 1);
            var last := CodeFrame(before.coder, pcm[160 * (n - 1)..160 * n]);
            CodeStream(c, pcm, n).coder == last.coder && CodeStream(c, pcm, n).frames == before.frames + [last.frame]
  {
    hide CodeFrame, Frame.InRange, Sendable;
  }

  /** After any number of frames of any speech. */
  lemma {:induction false} StreamLockstep(c: Coder, d: Decoder, pcm: seq<int16>, n: nat)
    requires Locked(c, d) && 160 * n <= |pcm|
    ensures Locked(CodeStream(c, pcm, n).coder, DecodeStream(d, CodeStream(c, pcm, n).frames).decoder)
  {
    hide *;
    LockedIsValid(c, d);
    if n > 0 {
      var before := CodeStream(c, pcm, n - 1);
      var part := pcm[160 * (n - 1)..160 * n];
      StreamLockstep(c, d, pcm, n - 1);
      FrameLockstep(before.coder, DecodeStream(d, before.frames).decoder, part);
      CodeOneMore(c, pcm, n);
      DecodeOneMore(d, before.frames, CodeFrame(before.coder, part).frame);
    } else {
      NothingSent(c, d, pcm);
    }
  }

  lemma NothingSent(c: Coder, d: Decoder, pcm: seq<int16>)
    requires c.filter.Valid() && d.Valid()
    ensures CodeStream(c, pcm, 0) == CodedStream(c, [])
    ensures DecodeStream(d, []) == DecodedStream(d, [])
  {
  }

  lemma LockedIsValid(c: Coder, d: Decoder)
    requires Locked(c, d)
    ensures c.filter.Valid() && d.Valid()
  {
  }

  /** The lags that the coder sends are always within the decoder's limits, so the
      decoder never falls back on its last valid lag. */
  lemma LagsAreValid(c: Coder, pcm: seq<int16>, k: nat)
    requires c.filter.Valid() && |pcm| == 160 && k < 4
    ensures Sendable(CodeFrame(c, pcm).frame.sub[k])
  {
    hide CodeSubs, Preprocess.Run, LogAreaRatio.LpcOf, ShortTerm.AnalysisStep, Autocorrelation.RescaledFrame,
          SubFrame.InRange;
  }

  // ---- through the packings ----

  /** The bytes are the blocks of the frames. */
  predicate SentVoip(code: seq<uint8>, frames: seq<ValidFrame>) {
    && |code| == 33 * |frames|
    && forall k :: 0 <= k < |frames| ==> code[33 * k..33 * k + 33] == VoipPacking.PackVoip(frames[k])
  }

  predicate ReceivedVoip(code: seq<uint8>, frames: seq<ValidFrame>) {
    && |code| == 33 * |frames|
    && forall k :: 0 <= k < |frames| ==> frames[k] == VoipPacking.UnpackVoip(code[33 * k..33 * k + 33])
  }

  predicate PairAt(code: seq<uint8>, frames: seq<ValidFrame>, k: nat)
    requires 65 * k + 65 <= |code| && 2 * k + 1 < |frames|
  {
    Wav49Packing.Carries(code[65 * k..65 * k + 65], frames[2 * k], frames[2 * k + 1])
  }

  /** WAV49 blocks hold two frames each. */
  predicate InPairs(code: seq<uint8>, frames: seq<ValidFrame>, n: nat) {
    |code| == 65 * n && |frames| == 2 * n && forall k :: 0 <= k < n ==> PairAt(code, frames, k)
  }

  predicate Sent(packing: Packing, code: seq<uint8>, frames: seq<ValidFrame>) {
    match packing
    case Voip => SentVoip(code, frames)
    case Wav49 => InPairs(code, frames, |code| / 65)
  }

  predicate Received(packing: Packing, code: seq<uint8>, frames: seq<ValidFrame>) {
    match packing
    case Voip => ReceivedVoip(code, frames)
    case Wav49 => InPairs(code, frames, |code| / 65)
  }

  lemma OneMoreVoip(code: seq<uint8>, frames: seq<ValidFrame>, block: seq<uint8>, f: ValidFrame)
    requires |block| == 33
    ensures SentVoip(code, frames) && block == VoipPacking.PackVoip(f) ==> SentVoip(code + block, frames + [f])
    ensures ReceivedVoip(code, frames) && f == VoipPacking.UnpackVoip(block) ==> ReceivedVoip(code + block, frames + [f])
  {
    hide VoipPacking.PackVoip, VoipPacking.UnpackVoip, Frame.InRange;
    if |code| == 33 * |frames| {
      forall k | 0 <= k <= |frames|
        ensures (code + block)[33 * k..33 * k + 33] == (if k < |frames| then code[33 * k..33 * k + 33] else block)
      {
      }
    }
  }

  lemma OneMorePair(code: seq<uint8>, frames: seq<ValidFrame>, n: nat, block: seq<uint8>, f0: ValidFrame, f1: ValidFrame)
    requires InPairs(code, frames, n) && Wav49Packing.Carries(block, f0, f1)
    ensures InPairs(code + block, frames + [f0, f1], n + 1)
  {
    hide Wav49Packing.Carries, Frame.InRange;
    BlockLengthIs65(block, f0, f1);
    var longer, more := code + block, frames + [f0, f1];
    forall k | 0 <= k < n + 1
      ensures PairAt(longer, more, k)
    {
      if k < n {
        assert PairAt(code, frames, k);
        SamePair(code, frames, block, [f0, f1], k);
      } else {
        assert longer[65 * k..65 * k + 65] == block;
      }
    }
  }

  lemma SamePair(code: seq<uint8>, frames: seq<ValidFrame>, block: seq<uint8>, added: seq<ValidFrame>, k: nat)
    requires 65 * k + 65 <= |code| && 2 * k + 1 < |frames| && PairAt(code, frames, k)
    ensures PairAt(code + block, frames + added, k)
  {
    hide Wav49Packing.Carries, Frame.InRange;
    assert (code + block)[65 * k..65 * k + 65] == code[65 * k..65 * k + 65];
  }

  lemma LengthOfPairs(code: seq<uint8>, frames: seq<ValidFrame>, n: nat)
    requires InPairs(code, frames, n)
    ensures |code| == 65 * n
  {
  }

  lemma BlockLengthIs65(block: seq<uint8>, f0: Frame, f1: Frame)
    requires Wav49Packing.Carries(block, f0, f1)
    ensures |block| == 65
  {
  }

  /** Both packings deliver the frames that were sent. */
  lemma Delivered(packing: Packing, code: seq<uint8>, sent: seq<ValidFrame>, received: seq<ValidFrame>)
    requires Sent(packing, code, sent) && Received(packing, code, received)
    ensures received == sent
  {
    hide VoipPacking.PackVoip, VoipPacking.UnpackVoip, Wav49Packing.Carries, Frame.InRange;
    match packing
    case Voip =>
      forall k | 0 <= k < |sent|
        ensures received[k] == sent[k]
      {
        VoipPacking.UnpackUndoesPack(sent[k]);
      }
    case Wav49 =>
      forall k | 0 <= k < |sent|
        ensures received[k] == sent[k]
      {
        PairDelivered(code, sent, received, k / 2);
      }
  }

  lemma PairDelivered(code: seq<uint8>, sent: seq<ValidFrame>, received: seq<ValidFrame>, k: nat)
    requires 65 * k + 65 <= |code| && 2 * k + 1 < |sent| && 2 * k + 1 < |received|
    requires PairAt(code, sent, k) && PairAt(code, received, k)
    ensures received[2 * k] == sent[2 * k] && received[2 * k + 1] == sent[2 * k + 1]
  {
    hide Wav49Packing.Carries, Frame.InRange;
    Wav49Packing.UnpackUndoesPack(code[65 * k..65 * k + 65], sent[2 * k], sent[2 * k + 1], received[2 * k],
          received[2 * k + 1]);
  }

  /** Lockstep through the wire: for all speech, both packings, and whatever the two
      ends were doing before as long as they agreed, the decoder that unpacks the
      bytes agrees with the coder again after the last frame. */
  lemma TransportLockstep(packing: Packing, c: Coder, d: Decoder, pcm: seq<int16>, n: nat,
                          code: seq<uint8>, received: seq<ValidFrame>)
    requires Locked(c, d) && 160 * n <= |pcm|
    requires Sent(packing, code, CodeStream(c, pcm, n).frames) && Received(packing, code, received)
    ensures received == CodeStream(c, pcm, n).frames
    ensures Locked(CodeStream(c, pcm, n).coder, DecodeStream(d, received).decoder)
  {
    hide *;
    LockedIsValid(c, d);
    Delivered(packing, code, CodeStream(c, pcm, n).frames, received);
    StreamLockstep(c, d, pcm, n);
  }

  /** So it is between a fresh coder and a fresh decoder. */
  lemma LockstepFromReset(packing: Packing, pcm: seq<int16>, n: nat, code: seq<uint8>, received: seq<ValidFrame>)
    requires 160 * n <= |pcm|
    requires Sent(packing, code, CodeStream(CODER_RESET, pcm, n).frames) && Received(packing, code, received)
    ensures received == CodeStream(CODER_RESET, pcm, n).frames
    ensures Locked(CodeStream(CODER_RESET, pcm, n).coder, DecodeStream(DECODER_RESET, received).decoder)
  {
    hide *;
    ResetIsLocked();
    TransportLockstep(packing, CODER_RESET, DECODER_RESET, pcm, n, code, received);
  }
}
