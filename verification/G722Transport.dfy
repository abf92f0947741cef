/** From PCM to PCM: the whole encoder factors into sub-band splitting, predictive
    coding and packing; the whole decoder into unpacking and predictive decoding.
    Lockstep then holds across the byte stream. */
module G722Transport {
  import opened Saturated
  import opened BitStreams
  import opened G722Band
  import opened G722Predictors
  import opened G722HighBand
  import opened G722Packing
  import opened G722Codec

  /** The sub-band samples that the encoder derives from its input. */
  function SubBandsOf(cfg: Config, v: EncoderValue, amp: seq<int16>): SubBands
    requires cfg.Valid() && v.bands.Shaped() && cfg.Whole(|amp|)
    decreases |amp|
  {
    hide *;
    if amp == [] then []
    else
      cfg.WholeStep(|amp|);
      var split := SplitBands(cfg, v, amp);
      [(split.xlow, split.xhigh)] + SubBandsOf(cfg, EncodeTurn(cfg, v, amp).state, amp[cfg.Stride()..])
  }

  /** The codes that the encoder produces, before packing. */
  function CodesOf(cfg: Config, v: EncoderValue, amp: seq<int16>): seq<nat>
    requires cfg.Valid() && v.bands.Shaped() && cfg.Whole(|amp|)
  {
    EncodeRun(v.bands, cfg.bits, cfg.eightK, SubBandsOf(cfg, v, amp)).codes
  }

  lemma {:induction false} EncodeRunConcat(c: Pair, bits: Width, eightK: bool, a: SubBands, b: SubBands)
    requires c.Shaped()
    ensures var first := EncodeRun(c, bits, eightK, a);
            var second := EncodeRun(first.state, bits, eightK, b);
            EncodeRun(c, bits, eightK, a + b) == EncodedRun(second.state, first.codes + second.codes)
  {
    hide EncodeOne;
    if b == [] {
      assert a + b == a;
    } else {
      var n := |b| - 1;
      EncodeRunConcat(c, bits, eightK, a, b[..n]);
      assert (a + b)[..|a| + n] == a + b[..n];
    }
  }

  lemma {:induction false} DecodeRunConcat(c: Pair, bits: Width, eightK: bool, a: seq<nat>, b: seq<nat>)
    requires c.Shaped()
    ensures var first := DecodeRun(c, bits, eightK, a);
            var second := DecodeRun(first.state, bits, eightK, b);
            DecodeRun(c, bits, eightK, a + b) == DecodedRun(second.state, first.out + second.out)
  {
    hide DecodeOne;
    if b == [] {
      assert a + b == a;
    } else {
      var n := |b| - 1;
      DecodeRunConcat(c, bits, eightK, a, b[..n]);
      assert (a + b)[..|a| + n] == a + b[..n];
    }
  }

  lemma EncodeRunOne(c: Pair, bits: Width, eightK: bool, x: (int16, int16))
    requires c.Shaped()
    ensures var one := EncodeOne(c, bits, eightK, x.0, x.1);
            EncodeRun(c, bits, eightK, [x]) == EncodedRun(one.state, [one.code])
  {
    hide EncodeOne;
    assert [x][..0] == [];
  }

  lemma DecodeRunOne(c: Pair, bits: Width, eightK: bool, code: nat)
    requires c.Shaped()
    ensures DecodeRun(c, bits, eightK, [code]).state == DecodeOne(c, bits, eightK, code).state
  {
    hide DecodeOne;
    assert [code][..0] == [];
  }

  /** The encoder's final bands are those of the predictive run over its sub-bands,
      and its output is the packed (or plain) sequence of that run's codes. */
  lemma {:induction false} EncoderFactors(cfg: Config, v: EncoderValue, amp: seq<int16>)
    requires cfg.Valid() && v.bands.Shaped() && cfg.Whole(|amp|)
    ensures var r := EncodeAll(cfg, v, amp);
            var run := EncodeRun(v.bands, cfg.bits, cfg.eightK, SubBandsOf(cfg, v, amp));
            && r.state.bands == run.state
            && if cfg.packed then Packed(r.state.out, r.bytes) == PackAll(v.out, run.codes, cfg.bits)
               else r.state.out == v.out && r.bytes == run.codes
    decreases |amp|
  {
    hide SplitBands, EncodeOne, PackOne, EncodeRun;
    if amp == [] {
      assert EncodeRun(v.bands, cfg.bits, cfg.eightK, []) == EncodedRun(v.bands, []) by {
        EmptyRun(v.bands, cfg.bits, cfg.eightK);
      }
    } else {
      cfg.WholeStep(|amp|);
      var split := SplitBands(cfg, v, amp);
      var x := (split.xlow, split.xhigh);
      var turn := EncodeTurn(cfg, v, amp);
      var rest := amp[cfg.Stride()..];
      EncoderFactors(cfg, turn.state, rest);
      EncodeRunOne(v.bands, cfg.bits, cfg.eightK, x);
      EncodeRunConcat(v.bands, cfg.bits, cfg.eightK, [x], SubBandsOf(cfg, turn.state, rest));
      var one := EncodeOne(v.bands, cfg.bits, cfg.eightK, split.xlow, split.xhigh);
      var later := EncodeRun(turn.state.bands, cfg.bits, cfg.eightK, SubBandsOf(cfg, turn.state, rest)).codes;
      assert ([one.code] + later)[1..] == later;
    }
  }

  lemma EmptyRun(c: Pair, bits: Width, eightK: bool)
    requires c.Shaped()
    ensures EncodeRun(c, bits, eightK, []) == EncodedRun(c, [])
    ensures DecodeRun(c, bits, eightK, []) == DecodedRun(c, [])
  {
  }

  /** The codes that the decoder extracts from a block of bytes. */
  function ReceivedCodes(cfg: Config, pending: Pending, data: seq<uint8>): seq<nat>
    requires cfg.Valid()
  {
    if cfg.packed then UnpackAll(pending, data, cfg.bits).codes else data
  }

  /** The decoder's final bands are those of the predictive run over those codes. */
  lemma {:induction false} DecoderFactors(cfg: Config, v: DecoderValue, data: seq<uint8>)
    requires cfg.Valid() && v.bands.Shaped()
    ensures DecodeAll(cfg, v, data).state.bands
         == DecodeRun(v.bands, cfg.bits, cfg.eightK, ReceivedCodes(cfg, v.pending, data)).state
    decreases |data|, v.pending.bits
  {
    hide DecodeOne, UnpackOne, DecodeRun, JoinBands;
    if data == [] {
      EmptyRun(v.bands, cfg.bits, cfg.eightK);
    } else if cfg.packed {
      var u := UnpackOne(v.pending, data[0], cfg.bits);
      var turn := DecodeTurn(cfg, v, u.code, u.state);
      var left := if u.used then data[1..] else data;
      DecoderFactors(cfg, turn.state, left);
      DecodeRunOne(v.bands, cfg.bits, cfg.eightK, u.code);
      DecodeRunConcat(v.bands, cfg.bits, cfg.eightK, [u.code], ReceivedCodes(cfg, u.state, left));
    } else {
      var turn := DecodeTurn(cfg, v, data[0], v.pending);
      DecoderFactors(cfg, turn.state, data[1..]);
      DecodeRunOne(v.bands, cfg.bits, cfg.eightK, data[0]);
      DecodeRunConcat(v.bands, cfg.bits, cfg.eightK, [data[0] as nat], data[1..]);
      assert data == [data[0]] + data[1..];
    }
  }

  /** Calls of the decoder, one after the other. */
  function DecodeCalls(cfg: Config, v: DecoderValue, calls: seq<seq<uint8>>): (r: DecoderValue)
    requires cfg.Valid() && v.bands.Shaped()
    ensures r.bands.Shaped()
    decreases |calls|
  {
    hide *;
    if calls == [] then v else DecodeCalls(cfg, DecodeAll(cfg, v, calls[0]).state, calls[1..])
  }

  lemma {:induction false} DecodeCallsAreOne(cfg: Config, v: DecoderValue, calls: seq<seq<uint8>>)
    requires cfg.Valid() && v.bands.Shaped()
    ensures DecodeCalls(cfg, v, calls) == DecodeAll(cfg, v, Joined(calls)).state
    decreases |calls|
  {
    hide DecodeTurn, UnpackOne;
    if calls != [] {
      DecodeCallsAreOne(cfg, DecodeAll(cfg, v, calls[0]).state, calls[1..]);
      DecodeAllConcat(cfg, v, calls[0], Joined(calls[1..]));
    }
  }

  /** Every code fits the width of its rate. */
  lemma {:induction false} CodesFit(c: Pair, bits: Width, eightK: bool, xs: SubBands)
    requires c.Shaped()
    ensures AllFit(EncodeRun(c, bits, eightK, xs).codes, bits)
  {
    hide EncodeOne, Fits;
    if xs != [] {
      var n := |xs| - 1;
      CodesFit(c, bits, eightK, xs[..n]);
      var before := EncodeRun(c, bits, eightK, xs[..n]);
      var code := EncodeOne(before.state, bits, eightK, xs[n].0, xs[n].1).code;
      FitsWidth(code, bits);
    }
  }

  lemma {:induction false} EncodeRunPrefix(c: Pair, bits: Width, eightK: bool, xs: SubBands, n: nat)
    requires c.Shaped() && n <= |xs|
    ensures EncodeRun(c, bits, eightK, xs).codes[..n] == EncodeRun(c, bits, eightK, xs[..n]).codes
  {
    hide EncodeRun;
    EncodeRunConcat(c, bits, eightK, xs[..n], xs[n..]);
    assert xs == xs[..n] + xs[n..];
  }

  /** The codes received so far are the first codes sent. */
  lemma ReceivedFromOneCall(enc: Config, dec: Config, v: EncoderValue, amp: seq<int16>, data: seq<uint8>)
    requires enc.Valid() && dec.Valid() && enc.bits == dec.bits && enc.packed == dec.packed
    requires v.bands.Shaped() && v.out == EMPTY && enc.Whole(|amp|)
    requires data <= EncodeAll(enc, v, amp).bytes
    ensures ReceivedCodes(dec, EMPTY, data) <= CodesOf(enc, v, amp)
  {
    hide EncodeAll, EncodeRun, PackAll, UnpackAll, SubBandsOf, AllFit;
    EncoderFactors(enc, v, amp);
    if enc.packed {
      var codes := CodesOf(enc, v, amp);
      CodesFit(v.bands, enc.bits, enc.eightK, SubBandsOf(enc, v, amp));
      assert Joined([data]) == data + Joined([]) == data by { assert [data][1..] == []; }
      DecodedIsPrefix(codes, [data], enc.bits);
      CallsDoNotMatter(EMPTY, [data], enc.bits);
    }
  }

  /** Lockstep for the bytes of one encode call. */
  lemma OneCallLockstep(enc: Config, dec: Config, v: EncoderValue, w: DecoderValue, amp: seq<int16>, calls: seq<seq<uint8>>)
    requires enc.Valid() && dec.Valid() && enc.bits == dec.bits && enc.packed == dec.packed
    requires v.bands.IsSound() && w.bands == v.bands && v.out == EMPTY == w.pending && enc.Whole(|amp|)
    requires Joined(calls) <= EncodeAll(enc, v, amp).bytes
    ensures var n := |ReceivedCodes(dec, EMPTY, Joined(calls))|;
            var there := DecodeCalls(dec, w, calls).bands;
            && n <= |SubBandsOf(enc, v, amp)|
            && InStep(EncodeRun(v.bands, enc.bits, enc.eightK, SubBandsOf(enc, v, amp)[..n]).state, there,
                      enc.eightK, dec.eightK)
            && there.IsSound()
  {
    hide EncodeAll, DecodeAll, EncodeRun, DecodeRun, DecodeCalls, SubBandsOf, ReceivedCodes, Joined, Sound;
    ShapedFromSound(v.bands);
    var data := Joined(calls);
    var received := ReceivedCodes(dec, EMPTY, data);
    var n := |received|;
    var xs := SubBandsOf(enc, v, amp);
    ReceivedFromOneCall(enc, dec, v, amp, data);
    EncodeRunPrefix(v.bands, enc.bits, enc.eightK, xs, n);
    assert received == CodesOf(enc, v, amp)[..n];
    DecodeCallsAreOne(dec, w, calls);
    DecoderFactors(dec, w, data);
    Lockstep(v.bands, w.bands, enc.bits, enc.eightK, dec.eightK, xs[..n]);
  }

  // ---- several encode calls ----

  predicate AllWhole(cfg: Config, talks: seq<seq<int16>>) {
    forall k :: 0 <= k < |talks| ==> cfg.Whole(|talks[k]|)
  }

  /** Calls of the encoder, one after the other; bits may be pending between them. */
  function EncodeCalls(cfg: Config, v: EncoderValue, talks: seq<seq<int16>>): (r: Emission)
    requires cfg.Valid() && v.bands.Shaped() && AllWhole(cfg, talks)
    ensures r.state.bands.Shaped()
    decreases |talks|
  {
    hide EncodeAll;
    if talks == [] then Emission(v, [])
    else
      var first := EncodeAll(cfg, v, talks[0]);
      var rest := EncodeCalls(cfg, first.state, talks[1..]);
      Emission(rest.state, first.bytes + rest.bytes)
  }

  lemma {:induction false} EncodeCallsAreOne(cfg: Config, v: EncoderValue, talks: seq<seq<int16>>)
    requires cfg.Valid() && v.bands.Shaped() && AllWhole(cfg, talks)
    ensures cfg.Whole(|Joined(talks)|) && EncodeCalls(cfg, v, talks) == EncodeAll(cfg, v, Joined(talks))
    decreases |talks|
  {
    hide EncodeAll, Config.Whole;
    if talks == [] {
      EncodeNothing(cfg, v);
    } else {
      EncodeCallsAreOne(cfg, EncodeAll(cfg, v, talks[0]).state, talks[1..]);
      EncodeAllConcat(cfg, v, talks[0], Joined(talks[1..]));
    }
  }

  /** The codes received so far are the first codes sent, in however many calls. */
  lemma ReceivedAreSent(enc: Config, dec: Config, v: EncoderValue, talks: seq<seq<int16>>, data: seq<uint8>)
    requires enc.Valid() && dec.Valid() && enc.bits == dec.bits && enc.packed == dec.packed
    requires v.bands.Shaped() && v.out == EMPTY && AllWhole(enc, talks)
    requires data <= EncodeCalls(enc, v, talks).bytes
    ensures enc.Whole(|Joined(talks)|) && ReceivedCodes(dec, EMPTY, data) <= CodesOf(enc, v, Joined(talks))
  {
    hide *;
    EncodeCallsAreOne(enc, v, talks);
    ReceivedFromOneCall(enc, dec, v, Joined(talks), data);
  }

  /** Lockstep across the wire: an encoder and a decoder of the same rate and packing, in
      equal bands (the initial ones, for instance), with any band-splitting and test
      flags; any PCM input, fed in any encode calls; any part of the output, cut into any
      decode calls.  The decoder's low band then equals what the encoder's was after the
      same number of codes, and so does the high band when the flags agree. */
  lemma WireLockstep(enc: Config, dec: Config, v: EncoderValue, w: DecoderValue, talks: seq<seq<int16>>,
                     calls: seq<seq<uint8>>)
    requires enc.Valid() && dec.Valid() && enc.bits == dec.bits && enc.packed == dec.packed
    requires v.bands.IsSound() && v.bands.Shaped() && AllWhole(enc, talks)
    requires w.bands == v.bands && v.out == EMPTY == w.pending
    requires Joined(calls) <= EncodeCalls(enc, v, talks).bytes
    ensures enc.Whole(|Joined(talks)|)
    ensures var n := |ReceivedCodes(dec, EMPTY, Joined(calls))|;
            var there := DecodeCalls(dec, w, calls).bands;
            var xs := SubBandsOf(enc, v, Joined(talks));
            && n <= |xs|
            && InStep(EncodeRun(v.bands, enc.bits, enc.eightK, xs[..n]).state, there, enc.eightK, dec.eightK)
            && there.IsSound()
  {
    hide *;
    EncodeCallsAreOne(enc, v, talks);
    OneCallLockstep(enc, dec, v, w, Joined(talks), calls);
  }

  lemma ShapedFromSound(c: Pair)
    requires c.IsSound()
    ensures c.Shaped()
  {
  }

  /** All sub-band samples that the encoder ever derives have 15 bits. */
  lemma {:induction false} SubBandsFit(cfg: Config, v: EncoderValue, amp: seq<int16>, k: nat)
    requires cfg.Valid() && v.bands.Shaped() && cfg.Whole(|amp|)
    requires Bounded(v.x, 16350) && Bounded(v.y, 16350)
    requires k < |SubBandsOf(cfg, v, amp)|
    ensures var x := SubBandsOf(cfg, v, amp)[k];
            -16384 <= x.0 <= 16383 && -16384 <= x.1 <= 16383
    decreases |amp|
  {
    hide SplitBands, EncodeOne, PackOne, Bounded;
    if amp != [] {
      cfg.WholeStep(|amp|);
      SubBandSamplesFit(cfg, v, amp);
      if k > 0 { SubBandsFit(cfg, EncodeTurn(cfg, v, amp).state, amp[cfg.Stride()..], k - 1); }
    }
  }

  /** The error bound for real input: at each rate, for all PCM, every restored low-band
      sample is within one cell of the sample that was coded, unless that one lay beyond
      the last decision level. */
  lemma PcmErrorBound(enc: Config, decEightK: bool, v: EncoderValue, amp: seq<int16>, k: nat)
    requires enc.Valid() && v.bands.IsSound() && v.bands.Shaped() && enc.Whole(|amp|)
    requires Bounded(v.x, 16350) && Bounded(v.y, 16350)
    requires k < |SubBandsOf(enc, v, amp)|
    ensures var xs := SubBandsOf(enc, v, amp);
            ErrorWithinCell(enc.bits, EncodeRun(v.bands, enc.bits, enc.eightK, xs[..k]).state.low, xs[k].0,
                            DecodeRun(v.bands, enc.bits, decEightK, CodesOf(enc, v, amp)).out[k].0)
  {
    hide EncodeRun, DecodeRun, SubBandsOf, ErrorWithinCell, Sound, Bounded;
    SubBandsFit(enc, v, amp, k);
    RunErrorBound(v.bands, enc.bits, enc.eightK, decEightK, SubBandsOf(enc, v, amp), k);
  }

  /** And the high-band bound for all wideband PCM at each rate. */
  lemma PcmHighError(enc: Config, v: EncoderValue, amp: seq<int16>, k: nat)
    requires enc.Valid() && !enc.eightK && v.bands.IsSound() && v.bands.Shaped() && enc.Whole(|amp|)
    requires Bounded(v.x, 16350) && Bounded(v.y, 16350)
    requires k < |SubBandsOf(enc, v, amp)|
    ensures var xs := SubBandsOf(enc, v, amp);
            HighErrorBounded(EncodeRun(v.bands, enc.bits, false, xs[..k]).state.high, xs[k].1,
                             DecodeRun(v.bands, enc.bits, false, CodesOf(enc, v, amp)).out[k].1)
  {
    hide EncodeRun, DecodeRun, SubBandsOf, HighErrorBounded, Sound, Bounded;
    SubBandsFit(enc, v, amp, k);
    RunHighError(v.bands, enc.bits, SubBandsOf(enc, v, amp), k);
  }
}
