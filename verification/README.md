# Fixed-point speech codecs: GSM 06.10 and ITU-T G.722

A Dafny model of the two speech codecs in `jni/spandsp`, with the saturating
arithmetic, bit, vector and FIR helpers that they rest on, and proofs of the
properties that make them work: what the decoder computes is what the coder
believed it would compute, on every input, and no intermediate value overflows.

## What is modelled

Machine integers are bounded subsets of `int`; every cast is either proved
lossless or written out as a wrap (`Saturated.Wrap16`, `Wrap32`). Right shifts of
signed values are floor divisions. Where the operands of a C `|` share no bit, it
is a sum; the packers prove the ranges that this needs.

For each stage there is a specification on values (sequences and datatypes) and,
in the same module, methods that follow the loops and in-place updates of the C
code on arrays and state objects. The methods are proved to compute the
specification; the theorems are about the specification.

| module | contents |
|---|---|
| `Saturated`, `BitOperations`, `VectorInt`, `Fir` | saturated.h, gsm0610_local.h, bit_operations.h, vector_int.c, fir.h |
| `G722Tables`, `G722Band`, `G722Predictors`, `G722Coding` | tables, adaptive predictor, quantizers, lockstep, low-band error |
| `G722Adaptation`, `G722HighBand`, `QmfRoundTrip` | where the predictor moves, high-band error, the two filter banks back to back |
| `BitStreams`, `G722Packing`, `G722Codec`, `G722Transport` | bit packing, QMF, whole encoder and decoder, lockstep over the wire |
| `GsmState`, `Preprocess`, `Postprocess`, `Autocorrelation`, `Reflection`, `LogAreaRatio` | GSM state, offset compensation, de-emphasis, LPC analysis |
| `PredictionFilter`, `NormalEquations`, `LatticeFilter` | the filter behind the reflection coefficients: what the recursion solves, what the lattice computes |
| `ShortTerm`, `LongTerm`, `Apcm`, `Rpe` | lattice filters, long-term predictor, block quantizer, grid coding |
| `GsmFrame`, `VoipPacking`, `Wav49Packing` | the 76 parameters and their two packings |
| `GsmLockstep`, `GsmCodec` | whole GSM coder and decoder |

## What came out

- Lattice reconstruction depends only on the saturation of the forward path. The
  backward path may clip, since both ends clip alike.
- The accumulator of the offset compensation stays within an interval around its
  reference, drawn in by 496 at either end, and runs from reset reach both ends.
- Rescaling after the autocorrelation is not lossless: a sample of 32760 or more in
  a frame scaled by 4 comes back as -32768, and these are the only losses. A stream
  that jumps from the lowest to the highest level produces one.
- With T(i) = (q6[i] x det) >> 12, the G.722 low-band error at 64 kbit/s is at most
  T(i) - T(i-1) for a sample caught at level i; at the lower rates two or four
  intervals count as one. The block quantizer of GSM meets 2^(6-exp) x |xMp - xM| <=
  256 x (mant + 9) + 1 + 2^(6-exp) / 2.
- The pre-emphasis of the coder never clips. De-emphasis of its output restores each
  sample before it or one more: the error of one starts behind an odd multiple of 4096
  and stays until the rounding behind some later sample takes it back.
- The Schur recursion in 16 bits solves the normal equations of order k to within 2^k / 2
  units of the normalised autocorrelation, and the lattice applies the filter it solves
  for to within 127.5 units, while neither saturates.
- The two filter banks of G.722 back to back delay by eleven pairs and err by 43 or 45
  units at most: the middle tap is 16779510 instead of 2^24 and the others total 38238.

## Model

| member | source | states |
|---|---|---|
| `ShortTerm.SampleReconstruction` | jni/spandsp/gsm0610_short_term.c:208-298 | For every lattice memory and reflection coefficients, one sample whose forward path does not clip comes back bit for bit, and the synthesis memory v[0..7] moves exactly as the analysis memory u[0..7]; clipping of the backward path is allowed, because both ends clip alike |
| `ShortTerm.RetracedIffNoClip` | jni/spandsp/gsm0610_short_term.c:208-298 | The synthesis lattice retraces the analysis lattice at all nine points if and only if none of the eight `saturate` calls on the forward path clips |
| `ShortTerm.LostIffErrorReaches` | jni/spandsp/gsm0610_short_term.c:235-251 | Where stages clip at one end of the range only, so whenever a single stage clips: the decoder loses the sample if and only if the error of a clipped stage meets, further down, no forward value at the opposite end of the range |
| `ShortTerm.RestoredIffErrorsVanish` | jni/spandsp/gsm0610_short_term.c:208-298 | For all inputs, whatever clips at whichever end: the sample comes back if and only if the error, computed stage by stage from what each stage loses to saturation, is zero at the bottom |
| `ShortTerm.ClippingLosesASample` | jni/spandsp/gsm0610_short_term.c:301-361 | Through both whole-frame filters from reset, with a fixed set of in-range codes, every frame that begins with 32000 twice comes back with its second sample changed, so the condition of the reconstruction cannot be dropped |
| `LogAreaRatio.SteepCodesAreInRange` | jni/spandsp/gsm0610_lpc.c:571-583 | The codes of that example are within the field widths |
| `ShortTerm.RunReconstruction` | jni/spandsp/gsm0610_short_term.c:208-298 | The same over any number of samples with fixed coefficients, with equal final memories |
| `ShortTerm.FrameReconstruction` | jni/spandsp/gsm0610_short_term.c:301-361 | The same over a frame with its four interpolated coefficient sets, after each segment |
| `ShortTerm.StreamReconstruction` | jni/spandsp/gsm0610_short_term.c:301-361 | For every run of frames without such clipping, synthesis fed with the residual and the same LARc returns every sample and ends with equal delay line, LARpp rows and j |
| `LatticeFilter.StageFollows` | jni/spandsp/gsm0610_short_term.c:235-251 | Stage by stage both paths of the lattice are the prediction filter of the first i coefficients and its reversal, applied to the signal, within 2^i / 2 units less a half |
| `LatticeFilter.LatticeIsItsFilter` | jni/spandsp/gsm0610_short_term.c:208-254 | From an empty lattice, while nothing saturates, every output sample is the signal through the filter of the eight coefficients, within 127.5 units: the same filter that the LPC analysis solves for |
| `ShortTerm.RatiosOfFrames` | jni/spandsp/gsm0610_short_term.c:301-329 | The ratios of a frame are the previous ratios of the next frame, and its last 120 samples are filtered with its own ratios alone |
| `ShortTerm.RpOfIsOddAndMonotone` | jni/spandsp/gsm0610_short_term.c:159-204 | The conversion from log-area ratios to reflection coefficients is odd and monotone (its result type also excludes -32768) |
| `ShortTerm.InterpolationWeights` | jni/spandsp/gsm0610_short_term.c:106-156 | The four segments weigh the previous and current ratios 3:1, 2:2, 1:3 and 0:4, without saturation |
| `ShortTerm.LarpToRp` | jni/spandsp/gsm0610_short_term.c:159-204 | The in-place loop computes that conversion for all eight entries |
| `ShortTerm.AnalysisSample` | jni/spandsp/gsm0610_short_term.c:235-251 | The in-place stage loop computes the forward path and the next memory of the lattice |
| `ShortTerm.ShortTermAnalysisFiltering` | jni/spandsp/gsm0610_short_term.c:208-254 | A segment of the frame, in place: memory and residual of the analysed run, the rest of the buffer untouched |
| `ShortTerm.SynthesisSample` | jni/spandsp/gsm0610_short_term.c:272-295 | The downward in-place loop computes the rebuilt sample and the next memory |
| `ShortTerm.ShortTermSynthesisFiltering` | jni/spandsp/gsm0610_short_term.c:257-298 | A segment from the residual buffer to the sample buffer |
| `ShortTerm.ShortTermAnalysisFilter` | jni/spandsp/gsm0610_short_term.c:301-329 | The whole-frame filter on the state object, with the swap of the LARpp rows by j |
| `ShortTerm.ShortTermSynthesisFilter` | jni/spandsp/gsm0610_short_term.c:332-361 | Its counterpart in the decoder |
| `G722Band.PredictedIsStable` | jni/spandsp/g722.c:203-234 | After one adaptation from ANY band state the poles satisfy |a[1]| <= 12288 and |a[0]| <= 15360 - a[1] |
| `G722Band.PoleCastsAreLossless` | jni/spandsp/g722.c:203-223 | Inside that region the 16-bit casts of the pole update never drop a bit |
| `G722Band.FilterCastsAreLossless` | jni/spandsp/g722.c:225-229 | Nor do the casts of the pole predictor products |
| `G722Band.ZeroSumFits` | jni/spandsp/g722.c:236-251 | Bound on the running sum of the zero predictor, so that its 32-bit accumulation is exact |
| `G722Band.BandState.Block4` | jni/spandsp/g722.c:185-255 | The method with its in-place shift of d[] and p[] performs the adaptation step of the specification on all fields; what that step does to the coefficients is stated by the rows of G722Adaptation |
| `G722Adaptation.ZerosFollowSignal` | jni/spandsp/g722.c:236-251 | Compared with an adaptation without difference signal, the new zeros change the prediction from the same six samples by exactly 128 times the sum of their magnitudes, with the sign of dx: for every band, with no condition |
| `G722Adaptation.ZeroLeaks` | jni/spandsp/g722.c:236-251 | With dx = 0 a zero only loses a 256th, rounded up, and keeps its side of zero |
| `G722Adaptation.PolesFollowSignal` | jni/spandsp/g722.c:198-223 | Over three steps, away from the limits: a[0] leaks a 256th and moves by 192 with the sign of neighbouring partial signals; a[1] leaks a 128th, moves by 128 with the sign of those two steps apart, and by a 32nd of a[0] (255 or 256 at most) against it where neighbours agree |
| `G722Adaptation.FirstPoleFollows` | jni/spandsp/g722.c:215-223 | With the limits: the first pole never ends on the wrong side of its leaked and limited value |
| `G722Adaptation.StepPredicts` | jni/spandsp/g722.c:185-254 | One step, where no doubling or sum saturates: the newest difference enters in front of the others and the next prediction is the inner product of the new coefficients with both delay lines, in units of 2^14, to within one unit per tap |
| `G722Band.ScaleIsMonotone` | jni/spandsp/g722.c:373-377 | det is a monotone function of nb, lies in 32..16384 (low) or 8..16384 (high), and its 16-bit cast is lossless |
| `G722Band.LogScalesAgree` | jni/spandsp/g722.c:363-371 | The clamp that the encoder applies after storing and the one that the decoder applies before storing agree if and only if the unclamped value fits 16 bits, which holds for every nb in range and every table step |
| `G722Band.ScaleDoubles` | jni/spandsp/g722.c:373-377 | 2048 steps of the log scale double the scale factor, up to the bits shifted out |
| `G722Band.LogScaleLeaks` | jni/spandsp/g722.c:363-371 | Without a step the log scale loses a 128th, rounded up, and a larger step never leads to a smaller scale |
| `G722HighBand.LargerLevelsWidenMore` | jni/spandsp/g722.c:164-172 | Low band: a code restored to a larger magnitude never has the smaller step |
| `G722HighBand.LargerHighLevelsWidenMore` | jni/spandsp/g722.c:174-182 | High band: the same; the inner level narrows the scale and the outer one widens it |
| `G722Band.InitialBandsAreSound` | jni/spandsp/g722.c:278-279 | The initial states satisfy the band invariant |
| `G722Predictors.LowStepsAgree` | jni/spandsp/g722.c:359-379 | From a band satisfying the invariant (stable poles, nb in range, det the function of nb) the low-band steps of encoder and decoder are equal and keep the invariant |
| `G722Predictors.HighStepsAgree` | jni/spandsp/g722.c:390-406 | The same for the high band |
| `G722Predictors.DequantizedIsExact` | jni/spandsp/g722.c:556-559 | The dequantised difference is the exact product shifted; its cast is lossless |
| `G722Predictors.WidthsAgree` | jni/spandsp/g722.c:332-352 | Codes of 8, 7 and 6 bits all carry the same predictor input ril and the same high-band index |
| `G722Predictors.StepLockstep` | jni/spandsp/g722.c:542-615 | One sample: encoder and decoder bands that agree before it agree after it, at each width and for any two eight_k flags |
| `G722Predictors.Lockstep` | jni/spandsp/g722.c:297-407 | Over every stream of sub-band samples and each of 48/56/64 kbit/s the decoder low band equals the encoder low band in all fields, the high band too when the flags match, and both keep the band invariant |
| `G722Predictors.LevelsInterlace` | jni/spandsp/g722.c:74-152 | At each rate the output level of a cell (one, two or four quantizer intervals that the decoder cannot tell apart) lies between the decision levels around the cell, and the tables are antisymmetric |
| `G722Predictors.LowBandError` | jni/spandsp/g722.c:332-357 | At each rate the restored low-band sample differs from the coded one by at most the width of its cell, whenever the quantizer loop stops at 29 or before |
| `G722Predictors.RunErrorBound` | jni/spandsp/g722.c:542-554 | The same bound at every position of every run at each rate, between encoder and decoder states that start alike |
| `G722HighBand.HighBandError` | jni/spandsp/g722.c:585-596 | From every sound band the restored high-band sample lies on the same side of the prediction as the coded one; within the level L = (564 x det) >> 12 it is off by at most L, beyond it it is at least L from the prediction, as far as 15 bits allow |
| `G722HighBand.RunHighError` | jni/spandsp/g722.c:383-388 | The same at every position of every wideband run at each rate, between ends that start alike |
| `G722Coding.Quantize` | jni/spandsp/g722.c:545-553 | The search loop stops at the first decision level above the magnitude |
| `G722Coding.EncodeLow` | jni/spandsp/g722.c:542-579 | Blocks 1L to 4L on the band object: code sent, and the new band state |
| `G722Coding.EncodeHigh` | jni/spandsp/g722.c:585-613 | Blocks 1H to 4H, likewise; what the code restores is stated by G722HighBand.HighBandError |
| `G722Coding.DecodeLow` | jni/spandsp/g722.c:332-379 | Restored sample for each width, and the new band state |
| `G722Coding.DecodeHigh` | jni/spandsp/g722.c:383-406 | Restored high-band sample, and the new band state |
| `G722Packing.PackAllStream` | jni/spandsp/g722.c:617-632 | Bits are conserved while packing: bits pending before, then the codes, are the bytes emitted, then the bits pending after |
| `G722Packing.UnpackAllStream` | jni/spandsp/g722.c:313-330 | The same while unpacking, and every code fits its width |
| `G722Packing.UnpackConcat` | jni/spandsp/g722.c:313-330 | Unpacking A and then B is unpacking A followed by B |
| `G722Packing.CallsDoNotMatter` | jni/spandsp/g722.c:313-330 | A byte stream cut into any number of calls of any lengths yields the codes of one call |
| `G722Packing.DecodedIsPrefix` | jni/spandsp/g722.c:313-330 | Whatever part of the bytes has arrived, the decoded codes are a prefix of the encoded ones |
| `G722Packing.PendingBitsAreTheLag` | jni/spandsp/g722.c:617-632 | Once all bytes have arrived, width x (encoded - decoded) = out_bits + in_bits, both at most 7, so at most two codes are missing |
| `G722Codec.SplitIsLossless` | jni/spandsp/g722.c:522-540 | For limited input no partial sum of the two transmit filters leaves 32 bits, both sub-band casts are lossless and both samples have 15 bits |
| `G722Codec.FiltersFit` | jni/spandsp/g722.c:426-432 | Whatever 16-bit samples a window holds, no partial sum of either filter leaves 32 bits: on the receiving side too |
| `QmfRoundTrip.ConstantIsLow` | jni/spandsp/g722.c:522-540 | A constant c in both windows gives xlow = c >> 1 and xhigh = 0 |
| `QmfRoundTrip.AlternationIsHigh` | jni/spandsp/g722.c:522-540 | A signal that alternates between c and -c gives xlow = 0 and is all in the high band |
| `QmfRoundTrip.FwdThenRevIsMirror` | jni/spandsp/g722.c:59-67 | The two filters in a row are one symmetric filter of 23 taps, with 16779510 in the middle |
| `QmfRoundTrip.SubBandsOfSpan` | jni/spandsp/g722.c:522-540 | The sub-bands of twelve successive pairs are the two filters along the last 23 limited pairs, for every PCM input |
| `QmfRoundTrip.SamplesComeBack` | jni/spandsp/g722.c:408-433 | Splitting and joining without quantization, for every PCM input and any start: the samples come back eleven pairs later, in order, the even ones within 43 and the odd ones within 45 of the limited input |
| `QmfRoundTrip.PlainSamplesComeBack` | jni/spandsp/g722.c:408-420 | In the 8 kHz and test modes the sample comes back without its lowest bit |
| `G722Codec.JoinIsLossless` | jni/spandsp/g722.c:408-427 | The casts of rlow + rhigh, rlow - rhigh and of the doubled samples are lossless for everything the decoder restores |
| `G722Codec.EncodeAllConcat` | jni/spandsp/g722.c:478-638 | Encoding A and then B gives the state and the bytes of encoding A followed by B |
| `G722Codec.DecodeAllConcat` | jni/spandsp/g722.c:297-436 | The whole decoder: decoding A and then B gives the state and the samples of decoding A followed by B |
| `G722Codec.Encoder.Encode` | jni/spandsp/g722.c:478-638 | The encoder object, with circular x/y buffers, ptr and bit buffer, computes the value-level encoder on the last twelve samples in time order, whose sub-bands the rows of QmfRoundTrip describe; the pending bits always lie below the shift |
| `G722Codec.Decoder.Decode` | jni/spandsp/g722.c:297-436 | The decoder object likewise, including the bit buffer kept between calls |
| `G722Codec.Encoder.constructor` | jni/spandsp/g722.c:439-462 | Initial state: silent bands, empty buffers |
| `G722Codec.Decoder.constructor` | jni/spandsp/g722.c:258-281 | Initial state of the decoder |
| `G722Transport.EncoderFactors` | jni/spandsp/g722.c:478-638 | The encoder is sub-band splitting, then predictive coding, then packing |
| `G722Transport.DecoderFactors` | jni/spandsp/g722.c:297-407 | The decoder is unpacking, then predictive decoding |
| `G722Transport.EncodeCallsAreOne` | jni/spandsp/g722.c:478-638 | A PCM stream fed in any number of encode calls gives the bytes of one call |
| `G722Transport.ReceivedAreSent` | jni/spandsp/g722.c:313-330 | The codes that the decoder extracts from any prefix of the bytes of any number of encode calls are the first codes of the encoder |
| `G722Transport.WireLockstep` | jni/spandsp/g722.c:297-407 | Lockstep from PCM across the byte stream: any PCM input, fed in any encode calls; any part of the output bytes, cut into any decode calls; the decoder bands equal those of the encoder after the same number of codes |
| `G722Transport.SubBandsFit` | jni/spandsp/g722.c:506-540 | Every sub-band sample that the encoder derives from any PCM, in every mode, has 15 bits |
| `G722Transport.PcmErrorBound` | jni/spandsp/g722.c:542-554 | The cell-width error bound for every PCM input at each of 48/56/64 kbit/s |
| `G722Transport.PcmHighError` | jni/spandsp/g722.c:585-596 | The high-band bound for every wideband PCM input at each rate |
| `VectorInt.VecDotProdi16` | jni/spandsp/vector_int.c:253-259 | The accumulation loop computes the dot product in 32-bit arithmetic; it is exact where no partial sum leaves 32 bits |
| `VectorInt.VecCircularDotProdi16` | jni/spandsp/vector_int.c:263-270 | The two part products over a circular buffer make the dot product of the buffer in time order, in 32-bit arithmetic; exact where no partial sum leaves 32 bits |
| `VectorInt.GainFits` | jni/spandsp/vector_int.c:253-259 | Samples bounded by m keep every partial sum, from any starting point, within m times the magnitudes of the coefficients |
| `VectorInt.UnrolledAfterWrite` | jni/spandsp/g722.c:526-534 | Writing at ptr and stepping it with wrap drops the oldest sample and appends the new one |
| `Fir.Filter.Step` | jni/spandsp/spandsp/fir.h:188-204 | For any tap count and after any input so far, one call returns the filter output defined on the whole input, with the 32-bit wrap and 16-bit cast made explicit; exact when the sum fits 32 bits |
| `Fir.Filter.Accumulate` | jni/spandsp/spandsp/fir.h:239-248 | The two circular loops compute the convolution in 32-bit wrap-around arithmetic |
| `Fir.DelayLineIsTheInput` | jni/spandsp/spandsp/fir.h:188-204 | The delay line holds the last samples of the input, newest first, after silence |
| `Fir.DelayLineFilters` | jni/spandsp/spandsp/fir.h:234-253 | Convolving the delay line is filtering the whole input |
| `Preprocess.NothingSaturates` | jni/spandsp/gsm0610_preprocess.c:101-141 | From a memory within the bound neither saturating addition clips, no cast drops a bit, and the bound holds again |
| `Preprocess.RunTracks` | jni/spandsp/gsm0610_preprocess.c:91-142 | Over every input stream L_z2 - z1 x 2^15 stays in [-(16380 x 2^15) + 496, 16384 x 2^15 - 496] |
| `Preprocess.PreEmphasisFits` | jni/spandsp/gsm0610_preprocess.c:139-142 | From every memory that a run reaches the pre-emphasis sum fits 16 bits, and the memory behind it is such a memory again |
| `Preprocess.NeverSaturates` | jni/spandsp/gsm0610_preprocess.c:91-142 | After every stream from reset none of the three saturating additions of the loop clips and no cast loses a bit, so the filter computes its exact difference equations |
| `Preprocess.BoundIsAttained` | jni/spandsp/gsm0610_preprocess.c:117-125 | Runs from reset end at either end of that interval, so it is the smallest one |
| `Preprocess.GsmPreprocess` | jni/spandsp/gsm0610_preprocess.c:88-148 | The loop computes the filter run over the frame and leaves its memory in the state |
| `Autocorrelation.ZeroLagDominates` | jni/spandsp/gsm0610_lpc.c:340-411 | For every signal and lag, the autocorrelation is at most the energy in magnitude |
| `Autocorrelation.ScaledIsSmall` | jni/spandsp/gsm0610_lpc.c:297-332 | After the dynamic scaling every sample is within 2048, whatever the frame |
| `Autocorrelation.ScalingIsNeeded` | jni/spandsp/gsm0610_lpc.c:297-332 | The scaling divides by a power of two, to the nearest unit, and at half that power the maximum would reach 2048 |
| `Autocorrelation.SumsFit` | jni/spandsp/gsm0610_lpc.c:340-411 | No partial sum of any lag leaves 32 bits, even doubled |
| `Autocorrelation.AcfIsDominated` | jni/spandsp/gsm0610_lpc.c:277-411 | For every frame all nine results fit 32 bits and none exceeds the first in magnitude |
| `Autocorrelation.RescalingWraps` | jni/spandsp/gsm0610_lpc.c:414-421 | The rescaling drops bits if and only if the scale is 4 and the sample is at least 32760; such a sample comes back as -32768 |
| `Autocorrelation.SomeStreamIsRescaledWrongly` | jni/spandsp/gsm0610_lpc.c:414-421 | Such samples occur: a stream of whole frames from reset leads to a frame whose last sample, 32764, is rescaled to -32768 |
| `Autocorrelation.AutocorrelationOf` | jni/spandsp/gsm0610_lpc.c:277-422 | Maximum search, in-place scaling, unrolled prologue, main loop, doubling and rescaling compute the doubled plain sums and the rescaled frame |
| `Autocorrelation.CorrIsDot` | jni/spandsp/gsm0610_lpc.c:335-411 | The sums of the unrolled branch are the dot products of the frame with itself, k samples apart, that the vector branch computes |
| `Reflection.GsmDiv` | jni/spandsp/gsm0610_lpc.c:100-134 | Restoring division: min(32767, floor(num x 2^15 / denom)) for all 0 <= num <= denom |
| `Reflection.NormalisingIsSafe` | jni/spandsp/gsm0610_lpc.c:446-454 | The shift that the source asks about never overflows, no cast drops a bit, and the first entry is normalised |
| `Reflection.ResidualEnergyShrinks` | jni/spandsp/gsm0610_lpc.c:477-490 | One order of the recursion never raises P[0] and keeps it non-negative |
| `Reflection.EnergiesAlwaysShrink` | jni/spandsp/gsm0610_lpc.c:464-502 | The same over all eight orders, up to the early exit |
| `Reflection.ReflectionCoefficients` | jni/spandsp/gsm0610_lpc.c:426-503 | The method writes all eight coefficients of the recursion, each of magnitude at most 32767 by its type, on every exit path; every division meets its precondition; what the recursion solves is stated by the rows of NormalEquations |
| `PredictionFilter.SumOfStepUp` | jni/spandsp/gsm0610_lpc.c:492-499 | One order of the step-up recursion, over the reals: the new filter is the old one plus the coefficient times its reversal one sample later, on every signal |
| `PredictionFilter.SumOfReversedStepUp` | jni/spandsp/gsm0610_lpc.c:492-499 | The reversed filter likewise, with the roles exchanged |
| `NormalEquations.OrderFollows` | jni/spandsp/gsm0610_lpc.c:464-502 | While no addition of an order saturates, P[0], P[m] and K[m] behind it are the correlations, at lags 0, m + n and -m, of the prediction filter built from the coefficients alone, within 2^n / 2 units less a half |
| `NormalEquations.CoefficientCancels` | jni/spandsp/gsm0610_lpc.c:477-490 | The coefficient, with its sign, cancels P[1] against P[0] to within one unit |
| `NormalEquations.OrderSolves` | jni/spandsp/gsm0610_lpc.c:464-502 | The new coefficient settles the equation at lag n and keeps the n - 1 others |
| `NormalEquations.RemainingOrdersSolve` | jni/spandsp/gsm0610_lpc.c:464-502 | The same over any number of orders from any state that follows its filter |
| `NormalEquations.CoefficientsSolveNormalEquations` | jni/spandsp/gsm0610_lpc.c:426-503 | For every dominated autocorrelation and every order k, as long as the recursion neither stops nor saturates: the filter of the first k coefficients solves the normal equations of order k for the normalised autocorrelation, each to within 2^k / 2 units |
| `LogAreaRatio.LarOfIsMonotone` | jni/spandsp/gsm0610_lpc.c:507-546 | The log-area transform is monotone over all 16-bit values |
| `LogAreaRatio.RpOfUndoesLarOf` | jni/spandsp/gsm0610_short_term.c:159-204 | The decoder conversion undoes the log-area transform up to one unit, for every coefficient |
| `LogAreaRatio.QuantizerFitsDecoder` | jni/spandsp/gsm0610_lpc.c:550-586 | The quantizer rows of the coder and the table rows of the decoder fit: the decoded value of every code is coded as that code, and a value not coded at an end of the range is restored within half a step |
| `LogAreaRatio.DecodedRatiosAreCodedBack` | jni/spandsp/gsm0610_short_term.c:59-89 | Coding the decoded ratios of a frame gives back all eight codes |
| `LogAreaRatio.LpcAnalysis` | jni/spandsp/gsm0610_lpc.c:588-598 | The whole analysis, in place; the codes are within the field widths 6,6,5,5,4,4,3,3 for every frame |
| `Apcm.MaximumIsBracketed` | jni/spandsp/gsm0610_rpe.c:348-445 | For every block maximum, the coded exponent and mantissa bound the normalised maximum, and the shift count is in range |
| `Apcm.NormalisedError` | jni/spandsp/gsm0610_rpe.c:460-471 | For each mantissa, the code is in 0..7 and the restored normalised value is within 256 x (mant + 9) + 1 |
| `Apcm.RoundingShift` | jni/spandsp/gsm0610_rpe.c:506-520 | The rounding right shift errs by at most half a unit |
| `Apcm.BlockBound` | jni/spandsp/gsm0610_rpe.c:387-523 | For every block of 13 samples, between what was coded and what any decoder restores: 2^(6-exp) x |xMp[i] - xM[i]| <= 256 x (mant + 9) + 1 + 2^(6-exp) / 2 |
| `Apcm.XmaxcToExpMant` | jni/spandsp/gsm0610_rpe.c:348-383 | The decoding loop gives the exponent and mantissa of the specification for every xmaxc in 0..63 |
| `Apcm.ApcmQuantization` | jni/spandsp/gsm0610_rpe.c:387-478 | The quantizer computes the coded block |
| `Apcm.ApcmInverseQuantization` | jni/spandsp/gsm0610_rpe.c:482-523 | The inverse quantizer computes the decoded block |
| `Rpe.WeightingFilter` | jni/spandsp/gsm0610_rpe.c:192-230 | With zero margins, the pointer-shifted filter is the zero-padded convolution, rounded and saturated |
| `Rpe.WeightsAnImpulse` | jni/spandsp/gsm0610_rpe.c:197-227 | The response to a sample of 8192 at any place is the row of eleven coefficients, cut at the ends of the sub-frame: the filter has unit gain at 8192 |
| `Rpe.WeightedIsRounded` | jni/spandsp/gsm0610_rpe.c:223-227 | Where it does not saturate, the output is the convolution in units of 2^13, rounded to the nearest |
| `Rpe.ConvolutionFits` | jni/spandsp/gsm0610_rpe.c:197-227 | No partial sum of the accumulation leaves 32 bits, for every input, and the last one is the convolution |
| `Rpe.EnergyBounds` | jni/spandsp/gsm0610_rpe.c:251-336 | Every partial energy is non-negative and at most 2^26 per term, so the doubled sums fit 32 bits |
| `Rpe.SharedEnergy` | jni/spandsp/gsm0610_rpe.c:256-330 | The partial sum shared by grids 0 and 3 is the same thirteen-term energy computed naively |
| `Rpe.GridIsFirstMaximiser` | jni/spandsp/gsm0610_rpe.c:236-344 | No grid has more energy than the chosen one and no earlier grid as much |
| `Rpe.RpeGridSelection` | jni/spandsp/gsm0610_rpe.c:236-344 | The method with shared sums returns that grid and its thirteen samples |
| `Rpe.PositionedIffDecimated` | jni/spandsp/gsm0610_rpe.c:527-559 | A sub-frame is the positioned one if and only if decimating it gives the thirteen samples and it is silent off the grid |
| `Rpe.RpeGridPositioning` | jni/spandsp/gsm0610_rpe.c:527-559 | The loop entered in its middle writes exactly forty entries, as positioned, and no other |
| `Rpe.RpeEncoding` | jni/spandsp/gsm0610_rpe.c:563-582 | Code of the residual; the residual is replaced by what the decoder will restore, and the margins stay zero |
| `Rpe.RpeDecoding` | jni/spandsp/gsm0610_rpe.c:585-598 | The decoder restores the same value |
| `LongTerm.BestIsFirstMaximum` | jni/spandsp/gsm0610_long_term.c:77-236 | The lag found is the first one in 40..120 of greatest positive correlation, and 40 when none is positive |
| `LongTerm.CorrelationFits` | jni/spandsp/gsm0610_long_term.c:77-310 | After scaling, no partial sum of a correlation leaves 32 bits, nor does the doubled result, for every residual and history |
| `LongTerm.PowerFits` | jni/spandsp/gsm0610_long_term.c:314-322 | The power of the history segment fits 32 bits |
| `LongTerm.GainShiftsAreSafe` | jni/spandsp/gsm0610_long_term.c:325-334 | Where the gain is normalised the argument is not zero, neither shift overflows and both casts are lossless |
| `LongTerm.MaxCrossCorr` | jni/spandsp/gsm0610_long_term.c:70-236 | The running-maximum loop over the buffer computes that search |
| `LongTerm.EvaluateLtpParameters` | jni/spandsp/gsm0610_long_term.c:253-347 | Scaling, search, rescaling and gain coding compute the parameters; 40 <= Nc <= 120 and 0 <= bc <= 3 |
| `LongTerm.LongTermPredictor` | jni/spandsp/gsm0610_long_term.c:375-395 | With dp and dpp the same place in the buffer, the prediction comes from the old history and the residual is the saturated difference, which rebuilds the sub-frame as the rows below say |
| `LongTerm.PredictionIsLagged` | jni/spandsp/gsm0610_long_term.c:365-369 | The prediction is the stretch of history that the search compared at that lag, times the decoded gain, to the nearest unit |
| `LongTerm.RebuiltIsClose` | jni/spandsp/gsm0610_long_term.c:365-369 | Whatever residual is restored, the rebuilt sample is no farther from the original than the restored residual is from the one sent, but for what the subtraction lost; and it lost nothing if and only if the difference fits 16 bits |
| `LongTerm.ResidualRebuildsIffKept` | jni/spandsp/gsm0610_long_term.c:365-369 | With the residual itself the original sample comes back if and only if the subtraction did not saturate |
| `LongTerm.MaximumIsOfTheSubFrame` | jni/spandsp/gsm0610_long_term.c:264-310 | The rescaled maximum is twice the correlation of the sub-frame itself with the history, in units of 64, up to the shifts of the scaled copy |
| `LongTerm.PowerIsOfTheSegment` | jni/spandsp/gsm0610_long_term.c:314-322 | The power is that of the segment in units of 64, up to the shifts |
| `LongTerm.GainsInterlace` | jni/spandsp/gsm0610_long_term.c:57-67 | Each decoded gain lies strictly between the decision levels around its code |
| `LongTerm.CodedGainIsClose` | jni/spandsp/gsm0610_long_term.c:336-347 | The decoded gain is within 6554/32768 of the quotient R/S that was coded, and one unit |
| `LongTerm.GainOfIsClose` | jni/spandsp/gsm0610_long_term.c:325-347 | Through the normalisation: the decoded gain is within 6558/32768 of the quotient of correlation and power, whenever that lies between zero and one |
| `LongTerm.LongTermSynthesisFiltering` | jni/spandsp/gsm0610_long_term.c:398-434 | Rebuilt residual, replacement of an invalid lag, and the history moved down by forty |
| `LongTerm.HistoryMovesUp` | jni/spandsp/gsm0610_long_term.c:430-433 | The newest forty samples are found at lag 40 and all others forty lags further than before |
| `Saturated.SaturateByCast` | jni/spandsp/spandsp/saturated.h:47-58 | The cast-and-compare form equals the clamp |
| `Saturated.SaturateIsNearest` | jni/spandsp/spandsp/saturated.h:47-58 | Saturation gives the nearest representable value |
| `Saturated.Saturate15IsNearest` | jni/spandsp/spandsp/saturated.h:62-69 | The 15-bit limit never widens a distance to a 15-bit value |
| `Saturated.Add32` | jni/spandsp/spandsp/saturated.h:156-187 | The unsigned-arithmetic adder equals the clamped sum |
| `Saturated.RoundMulBounds` | jni/spandsp/gsm0610_local.h:123-132 | The rounded product by a fraction never exceeds the other factor in magnitude, so its cast is lossless |
| `BitOperations.TopBit` | jni/spandsp/spandsp/bit_operations.h:47-140 | The five masking steps on a 32-bit word return the position of its highest set bit, -1 for zero |
| `BitOperations.TopBitOfIsUnique` | jni/spandsp/spandsp/bit_operations.h:47-140 | That position is the only one between whose powers of two the number lies |
| `BitOperations.NormalisedByTopBit` | jni/spandsp/gsm0610_lpc.c:76-96 | The normalising shift built on it brings a positive value, and one more than it, into the top octave |
| `VoipPacking.PackedNumber` | jni/spandsp/gsm0610_encode.c:265-309 | A packed block, read as one big-endian number, is the number whose digits are the signature 0xD and the 76 parameters in the radices of their field widths |
| `VoipPacking.UnpackedNumber` | jni/spandsp/gsm0610_decode.c:269-311 | For every block, unpacking reads the digits of its number |
| `VoipPacking.DigitsAreUnique` | jni/spandsp/gsm0610_encode.c:265-309 | In-range digits are determined by the number |
| `VoipPacking.UnpackUndoesPack` | jni/spandsp/gsm0610_decode.c:269-311 | unpack after pack is the identity on every in-range frame |
| `VoipPacking.PackAfterUnpack` | jni/spandsp/gsm0610_encode.c:265-309 | pack after unpack restores every block except for its signature nibble |
| `VoipPacking.PackUndoesUnpackIffSigned` | jni/spandsp/gsm0610_encode.c:265-309 | pack after unpack is the identity exactly on blocks whose top nibble is 0xD |
| `VoipPacking.Gsm0610PackVoip` | jni/spandsp/gsm0610_encode.c:265-309 | The packer, byte after byte, writes that block |
| `VoipPacking.Gsm0610UnpackVoip` | jni/spandsp/gsm0610_decode.c:269-311 | The unpacker returns that frame; it is in range for every block |
| `Wav49Packing.Gsm0610PackWav49` | jni/spandsp/gsm0610_encode.c:170-262 | The shift-register packer emits 65 bytes whose bits, least significant first, are exactly the 520 parameter bits of the two frames in order |
| `Wav49Packing.Gsm0610UnpackWav49` | jni/spandsp/gsm0610_decode.c:127-266 | The shift-register unpacker finds, in every block, two in-range frames that the block carries in that sense |
| `Wav49Packing.UnpackUndoesPack` | jni/spandsp/gsm0610_decode.c:127-266 | A block carries only one pair of in-range frames, so unpack after pack is the identity |
| `Wav49Packing.PackUndoesUnpack` | jni/spandsp/gsm0610_encode.c:170-262 | A pair of frames is carried by only one block, so pack after unpack is the identity on every block |
| `Wav49Packing.FieldsAreUnique` | jni/spandsp/gsm0610_encode.c:170-262 | Field values are determined by the concatenation of their bits |
| `Wav49Packing.Put` | jni/spandsp/gsm0610_encode.c:175-192 | One step of the shift register keeps the bits not yet emitted at its top |
| `Wav49Packing.Emit` | jni/spandsp/gsm0610_encode.c:178-191 | The byte taken out is the next eight bits of the stream |
| `Wav49Packing.Fetch` | jni/spandsp/gsm0610_decode.c:135-156 | The fetched byte lands above exactly the bits that are pending |
| `Wav49Packing.Take` | jni/spandsp/gsm0610_decode.c:133-152 | The field taken out is the next bits of the stream and fits its width |
| `GsmLockstep.SubsLockstep` | jni/spandsp/gsm0610_decode.c:89-98 | Sub-frame by sub-frame, the decoder restores the same residual history as the coder and uses the lag it was sent |
| `GsmLockstep.RestoredIsClose` | jni/spandsp/gsm0610_encode.c:85-101 | What both ends restore for a coded sub-frame differs at each sample from its short-term residual by no more than the block quantizer missed there, but for what the subtraction of the prediction lost |
| `GsmLockstep.FrameLockstep` | jni/spandsp/gsm0610_encode.c:71-107 | One frame of any speech: coder and decoder that agree on history, LARpp and j agree again after it, and the frame is in range |
| `GsmLockstep.StreamLockstep` | jni/spandsp/gsm0610_encode.c:71-107 | The same after any number of frames |
| `GsmLockstep.LastValidLag` | jni/spandsp/gsm0610_long_term.c:411-414 | Over any run of received sub-frames, whatever lags they hold, the decoder uses the last valid lag received, or the one it started from |
| `GsmLockstep.LagsAreValid` | jni/spandsp/gsm0610_long_term.c:411-414 | Every lag that the coder sends is one that the decoder accepts |
| `GsmLockstep.Delivered` | jni/spandsp/gsm0610_decode.c:314-352 | Through VoIP as well as WAV49 blocks the frames received are the frames sent |
| `GsmLockstep.TransportLockstep` | jni/spandsp/gsm0610_decode.c:79-102 | For every PCM stream and both packings, after each frame the decoder that unpacks the bytes has the history dp0[0..119], LARpp and j of the coder |
| `GsmLockstep.LockstepFromReset` | jni/spandsp/gsm0610_encode.c:116-129 | The same between a fresh coder and a fresh decoder |
| `Postprocess.RestoredSample` | jni/spandsp/gsm0610_decode.c:59-76 | One sample, without any condition: with a memory that is the coder's previous sample or one more, de-emphasis restores the coder's sample plus an explicit rounding error of 0 or 1 plus whatever the pre-emphasis clipped |
| `Postprocess.RestoredIffClipFits` | jni/spandsp/gsm0610_decode.c:59-76 | One step, for arbitrary values: the restored sample is the coder's or one more if and only if that error and the clipping together are 0 or 1 |
| `Postprocess.DeEmphasisRestoresRuns` | jni/spandsp/gsm0610_decode.c:59-76 | Over every run of the coder's preprocessing, de-emphasis of its output restores each sample or one more, and the error is given exactly, sample by sample |
| `Postprocess.DeEmphasisRestoresStreams` | jni/spandsp/gsm0610_decode.c:59-76 | In particular for every stream from reset at both ends |
| `Postprocess.ReachedNeverClips` | jni/spandsp/gsm0610_preprocess.c:139-142 | In no run of the coder does the pre-emphasis clip |
| `Postprocess.ErrorsPersist` | jni/spandsp/gsm0610_decode.c:67-71 | An error of one can outlast its cause: the stream 8192, 208, 8 from reset has the samples 4096, 100, 0, which are restored as 4096, 101, 1 |
| `Postprocess.TruncatedIsMultipleBelow` | jni/spandsp/gsm0610_decode.c:72 | The output mask rounds down to a multiple of eight, for negative samples too |
| `GsmCodec.Gsm0610Init` | jni/spandsp/gsm0610_encode.c:116-129 | A fresh state is the start of both runs |
| `GsmCodec.EncodeSubFrame` | jni/spandsp/gsm0610_encode.c:85-101 | Prediction, coding and reconstruction in place give the coded sub-frame and the residual that a decoder restores from it; the margins of e stay zero |
| `GsmCodec.EncodeAFrame` | jni/spandsp/gsm0610_encode.c:71-107 | The coder on its state object computes the value-level coder: frame, preprocessing memory, lattice memory and history |
| `GsmCodec.Gsm0610Encode` | jni/spandsp/gsm0610_encode.c:312-340 | The bytes are the blocks, in the packing of the state, of the frames of the whole stream |
| `GsmCodec.DecodeSubFrames` | jni/spandsp/gsm0610_decode.c:89-98 | The sub-frame loop with its moving history leaves the concatenated residual in wt |
| `GsmCodec.Postprocessing` | jni/spandsp/gsm0610_decode.c:59-76 | De-emphasis and truncation, in place, with the memory msr |
| `GsmCodec.DecodeAFrame` | jni/spandsp/gsm0610_decode.c:79-102 | The decoder on its state object computes the value-level decoder, samples included |
| `GsmCodec.Gsm0610Decode` | jni/spandsp/gsm0610_decode.c:314-352 | The frames decoded are those that the blocks hold, and state and samples are those of decoding them |

## Left out

- MMX, SSE and i386 assembler branches; the C branch beside each is the model.
- JNI wrappers, sockets, RTP packets, and every module of spandsp that is present
  only as a header (T.30, V.17, DTMF and others).
- Floating-point helpers, G.168 tables and g711.h.
- GSM0610_PACKING_NONE: one byte per parameter. Its unpacker does not mask, so frames
  read from it need not be in range; the packing enumeration has the other two.
- malloc, free, NULL checks and the release functions.
- Calls that are not a whole number of frames (GSM) or stereo pairs of samples
  (wideband G.722): the C code reads past its input there, so they are preconditions.
- The private headers that declare the state structures are not part of this model;
  field shapes follow their use. In a G.722 band p[2] and a[2] are pairs of fields,
  b and d are arrays; the two rows of LARpp are sequences in one field.
- Pointers into the caller's output buffers: GSM blocks and decoded samples, and the
  output of G.722, are appended to sequences. The frame structure is a value that the
  unpackers return, so writing its fields one by one is not modelled.
- Runs of macro lines (STEP, the forty-term correlation sum, the eight table lines
  of the log-area quantizer) are loops over the same terms in the same order.
- BitOperations.Gsm0610Norm: is a function on bounded integers built on the function
  TopBitOf; the bit-vector method TopBit is proved equal to that function instead of
  being called.
- ShortTerm.StreamReconstruction: assumes that the forward path does not clip;
  RetracedIffNoClip shows stage by stage that nothing weaker gives retracing, and
  RestoredIffErrorsVanish which samples come back in spite of clipping.
- ShortTerm.ClippingLosesASample: fixes the codes and the samples separately; it does not
  show a speech signal whose own analysis gives these codes.
- NormalEquations.CoefficientsSolveNormalEquations: assumes that the recursion neither
  stops early nor saturates; behind a saturated order the filter is another one.
- LatticeFilter.LatticeIsItsFilter: assumes that neither path saturates and one set of
  coefficients from an empty memory; the change of coefficients inside a frame is left out.
- G722Adaptation.StepPredicts: assumes quantities within 15 bits, since doubling them
  saturates beyond.
- QmfRoundTrip.SamplesComeBack: the sub-bands are passed on unquantized; with quantization
  the errors of the two bands, which are bounded, enter the receive filters.
- The quality of the codecs (spectral distortion, perceptual error) and the size of
  the error of a whole GSM frame.
- vec_lmsi16, vec_min_maxi16, bottom_bit, bit_reverse, parity and the floating-point
  FIR filter: the two codecs do not use them.
