/** The 65-byte WAV49 packing of two frames (gsm0610_pack_wav49,
    gsm0610_unpack_wav49): 2 x 260 parameter bits, least significant first, moved
    through a 16-bit shift register.

    The ghost `fs` is the list of fields that have gone through the register.  The
    points at which bytes are emitted and fetched differ between the two frames,
    because the first one ends in the middle of a byte. */
module Wav49Packing {
  import opened Saturated
  import opened BitStreams
  import opened LogAreaRatio
  import opened GsmFrame

  type uint16 = x: int | 0 <= x <= 0xFFFF
  type Width = w: nat | 2 <= w <= 7 witness 2

  datatype Field = Field(value: nat, width: Width)

  /** A parameter cut to its width, as the shift register cuts it. */
  function F(v: int, w: Width): (f: Field)
    ensures f.width == w && Fits(f.value, w)
  {
    Field(Low(v, w), w)
  }

  function FieldBits(fs: seq<Field>): seq<bool> {
    if fs == [] then []
    else FieldBits(fs[..|fs| - 1]) + Bits(fs[|fs| - 1].value, fs[|fs| - 1].width)
  }

  lemma FieldBitsSnoc(fs: seq<Field>, f: Field)
    ensures FieldBits(fs + [f]) == FieldBits(fs) + Bits(f.value, f.width)
  {
    assert (fs + [f])[..|fs|] == fs;
  }

  // ---- the fields of a frame ----

  function LarFields(a: seq<int16>): (fs: seq<Field>)
    requires |a| == 8
    ensures |fs| == 8
  {
    [F(a[0], 6), F(a[1], 6), F(a[2], 5), F(a[3], 5), F(a[4], 4), F(a[5], 4), F(a[6], 3), F(a[7], 3)]
  }

  function SampleFields(x: seq<int16>): (fs: seq<Field>)
    ensures |fs| == |x|
    ensures forall i :: 0 <= i < |x| ==> fs[i] == F(x[i], 3)
  {
    seq(|x|, i requires 0 <= i < |x| => F(x[i], 3))
  }

  function Header(s: SubFrame): (fs: seq<Field>)
    ensures |fs| == 4
  {
    [F(s.Nc, 7), F(s.bc, 2), F(s.Mc, 2), F(s.xmaxc, 6)]
  }

  function SubFields(s: SubFrame): (fs: seq<Field>)
    ensures |fs| == 4 + |s.xMc|
  {
    Header(s) + SampleFields(s.xMc)
  }

  /** The first `n` sub-frames. */
  function SubsFields(sub: seq<SubFrame>, n: nat): seq<Field>
    requires n <= |sub|
  {
    if n == 0 then [] else SubsFields(sub, n - 1) + SubFields(sub[n - 1])
  }

  function FrameFields(f: Frame): seq<Field>
    requires f.Complete()
  {
    LarFields(f.LARc) + SubsFields(f.sub, 4)
  }

  /** The block holds the two frames: its bits, least significant first within each
      byte, are the parameter bits in the order of the frame structure. */
  predicate Carries(block: seq<uint8>, f0: Frame, f1: Frame) {
    && f0.Complete() && f1.Complete() && |block| == 65
    && StreamOf(block, 8) == FieldBits(FrameFields(f0) + FrameFields(f1))
  }

  // ---- the block and the frames determine each other ----

  predicate SameWidths(fs: seq<Field>, gs: seq<Field>) {
    |fs| == |gs| && forall i :: 0 <= i < |fs| ==> fs[i].width == gs[i].width
  }

  predicate EachFits(fs: seq<Field>) {
    forall i :: 0 <= i < |fs| ==> Fits(fs[i].value, fs[i].width)
  }

  lemma {:induction false} SameLength(fs: seq<Field>, gs: seq<Field>)
    requires SameWidths(fs, gs)
    ensures |FieldBits(fs)| == |FieldBits(gs)|
  {
    if fs != [] { SameLength(fs[..|fs| - 1], gs[..|gs| - 1]); }
  }

  lemma {:induction false} FieldsAreUnique(fs: seq<Field>, gs: seq<Field>)
    requires SameWidths(fs, gs) && EachFits(fs) && EachFits(gs) && FieldBits(fs) == FieldBits(gs)
    ensures fs == gs
  {
    if fs != [] {
      hide Bits, Fits;
      var n := |fs| - 1;
      SameLength(fs[..n], gs[..n]);
      SameParts(FieldBits(fs[..n]), Bits(fs[n].value, fs[n].width), FieldBits(gs[..n]), Bits(gs[n].value, gs[n].width));
      BitsInjective(fs[n].value, gs[n].value, fs[n].width);
      FieldsAreUnique(fs[..n], gs[..n]);
      assert fs == fs[..n] + [fs[n]] && gs == gs[..n] + [gs[n]];
    }
  }

  /** Two field lists of equal widths which are equal only if they come from equal
      parameters. */
  lemma JoinFields(fs: seq<Field>, x: seq<Field>, gs: seq<Field>, y: seq<Field>)
    requires SameWidths(fs, gs) && SameWidths(x, y) && EachFits(fs) && EachFits(x)
    ensures SameWidths(fs + x, gs + y) && EachFits(fs + x)
    ensures fs + x == gs + y ==> fs == gs && x == y
  {
    if fs + x == gs + y { SameParts(fs, x, gs, y); }
  }

  lemma InRangeIsKept(v: int, w: Width)
    requires 0 <= v
    requires w == 2 ==> v < 4
    requires w == 3 ==> v < 8
    requires w == 4 ==> v < 16
    requires w == 5 ==> v < 32
    requires w == 6 ==> v < 64
    requires w == 7 ==> v < 128
    ensures F(v, w).value == v
  {
    PowersAtHand();
    LowOfFitting(v, w);
  }

  lemma LarFieldsAreFaithful(a: seq<int16>, b: seq<int16>)
    requires |a| == |b| == 8
    ensures EachFits(LarFields(a)) && SameWidths(LarFields(a), LarFields(b))
    ensures LarcInRange(a) && LarcInRange(b) && LarFields(a) == LarFields(b) ==> a == b
  {
    var x, y := LarFields(a), LarFields(b);
    hide Fits;
    if LarcInRange(a) && LarcInRange(b) && x == y {
      assert x[0] == y[0] && x[1] == y[1] && x[2] == y[2] && x[3] == y[3];
      assert x[4] == y[4] && x[5] == y[5] && x[6] == y[6] && x[7] == y[7];
      LarFieldsKept(a);
      LarFieldsKept(b);
    }
  }

  lemma LarFieldsKept(a: seq<int16>)
    requires LarcInRange(a)
    ensures forall i :: 0 <= i < 8 ==> LarFields(a)[i].value == a[i]
  {
    InRangeIsKept(a[0], 6);
    InRangeIsKept(a[1], 6);
    InRangeIsKept(a[2], 5);
    InRangeIsKept(a[3], 5);
    InRangeIsKept(a[4], 4);
    InRangeIsKept(a[5], 4);
    InRangeIsKept(a[6], 3);
    InRangeIsKept(a[7], 3);
  }

  lemma SubFieldsAreFaithful(s: SubFrame, t: SubFrame)
    requires |s.xMc| == |t.xMc| == 13
    ensures EachFits(SubFields(s)) && SameWidths(SubFields(s), SubFields(t))
    ensures s.InRange() && t.InRange() && SubFields(s) == SubFields(t) ==> s == t
  {
    var x, y := SubFields(s), SubFields(t);
    hide Fits;
    if s.InRange() && t.InRange() && x == y {
      assert x[0] == y[0] && x[1] == y[1] && x[2] == y[2] && x[3] == y[3];
      assert x[4..] == SampleFields(s.xMc) && y[4..] == SampleFields(t.xMc);
      SubFieldsKept(s);
      SubFieldsKept(t);
      assert forall i :: 0 <= i < 13 ==> SampleFields(s.xMc)[i].value == SampleFields(t.xMc)[i].value;
      assert s.xMc == t.xMc;
    }
  }

  lemma SubFieldsKept(s: SubFrame)
    requires s.InRange()
    ensures F(s.Nc, 7).value == s.Nc && F(s.bc, 2).value == s.bc && F(s.Mc, 2).value == s.Mc &&
          F(s.xmaxc, 6).value == s.xmaxc
    ensures forall i :: 0 <= i < 13 ==> SampleFields(s.xMc)[i].value == s.xMc[i]
  {
    InRangeIsKept(s.Nc, 7);
    InRangeIsKept(s.bc, 2);
    InRangeIsKept(s.Mc, 2);
    InRangeIsKept(s.xmaxc, 6);
    forall i | 0 <= i < 13 ensures SampleFields(s.xMc)[i].value == s.xMc[i] {
      InRangeIsKept(s.xMc[i], 3);
    }
  }

  lemma {:induction false} SubsFieldsFit(a: seq<SubFrame>, b: seq<SubFrame>, n: nat)
    requires n <= |a| && n <= |b|
    requires forall k :: 0 <= k < n ==> |a[k].xMc| == |b[k].xMc| == 13
    ensures EachFits(SubsFields(a, n)) && SameWidths(SubsFields(a, n), SubsFields(b, n))
  {
    if n > 0 {
      SubsFieldsFit(a, b, n - 1);
      SubFieldsAreFaithful(a[n - 1], b[n - 1]);
      hide SubFields, SubFrame.InRange, EachFits, SameWidths, F;
      JoinFields(SubsFields(a, n - 1), SubFields(a[n - 1]), SubsFields(b, n - 1), SubFields(b[n - 1]));
    }
  }

  lemma {:induction false} SubsFieldsAreFaithful(a: seq<SubFrame>, b: seq<SubFrame>, n: nat)
    requires n <= |a| && n <= |b|
    requires forall k :: 0 <= k < n ==> a[k].InRange() && b[k].InRange()
    requires SubsFields(a, n) == SubsFields(b, n)
    ensures a[..n] == b[..n]
  {
    if n > 0 {
      var fs, gs, s, t := SubsFields(a, n - 1), SubsFields(b, n - 1), a[n - 1], b[n - 1];
      assert s.InRange() && t.InRange();
      assert |fs| == |gs| by { SubsFieldsFit(a, b, n - 1); }
      assert fs + SubFields(s) == gs + SubFields(t);
      hide SubFields, SubFrame.InRange, SubsFields;
      LastSubIsFaithful(fs, s, gs, t);
      SubsFieldsAreFaithful(a, b, n - 1);
      SnocPrefix(a, b, n);
    }
  }

  lemma LastSubIsFaithful(fs: seq<Field>, s: SubFrame, gs: seq<Field>, t: SubFrame)
    requires s.InRange() && t.InRange() && |fs| == |gs|
    requires fs + SubFields(s) == gs + SubFields(t)
    ensures fs == gs && s == t
  {
    SubFieldsAreFaithful(s, t);
    hide SubFields;
    SameParts(fs, SubFields(s), gs, SubFields(t));
  }

  lemma FrameFieldsAreFaithful(f: Frame, g: Frame)
    requires f.Complete() && g.Complete()
    ensures EachFits(FrameFields(f)) && SameWidths(FrameFields(f), FrameFields(g))
    ensures f.InRange() && g.InRange() && FrameFields(f) == FrameFields(g) ==> f == g
  {
    LarFieldsAreFaithful(f.LARc, g.LARc);
    SubsFieldsFit(f.sub, g.sub, 4);
    hide LarFields, SubsFields, EachFits, SameWidths, SubFrame.InRange;
    JoinFields(LarFields(f.LARc), SubsFields(f.sub, 4), LarFields(g.LARc), SubsFields(g.sub, 4));
    if f.InRange() && g.InRange() && FrameFields(f) == FrameFields(g) {
      SubsFieldsAreFaithful(f.sub, g.sub, 4);
    }
    assert f.sub[..4] == f.sub && g.sub[..4] == g.sub;
  }

  /** What is unpacked from a block into which in-range frames were packed is those
      frames. */
  lemma UnpackUndoesPack(block: seq<uint8>, f0: Frame, f1: Frame, r0: Frame, r1: Frame)
    requires f0.InRange() && f1.InRange() && Carries(block, f0, f1)
    requires r0.InRange() && r1.InRange() && Carries(block, r0, r1)
    ensures r0 == f0 && r1 == f1
  {
    FrameFieldsAreFaithful(f0, r0);
    FrameFieldsAreFaithful(f1, r1);
    FrameFieldsAreFaithful(r0, f0);
    FrameFieldsAreFaithful(r1, f1);
    hide FrameFields, Frame.Complete, FieldBits, EachFits, SameWidths;
    JoinFields(FrameFields(f0), FrameFields(f1), FrameFields(r0), FrameFields(r1));
    JoinFields(FrameFields(r0), FrameFields(r1), FrameFields(f0), FrameFields(f1));
    FieldsAreUnique(FrameFields(f0) + FrameFields(f1), FrameFields(r0) + FrameFields(r1));
  }

  /** Packing the frames that were unpacked from a block gives the block. */
  lemma PackUndoesUnpack(block: seq<uint8>, packed: seq<uint8>, f0: Frame, f1: Frame)
    requires Carries(block, f0, f1) && Carries(packed, f0, f1)
    ensures packed == block
  {
    BytesFit(block);
    BytesFit(packed);
    hide StreamOf, AllFit, FrameFields, FieldBits;
    StreamPrefix(block, packed, 8);
  }

  lemma ByteFits(byte: uint8)
    ensures Fits(byte, 8)
  {
    PowersAtHand();
  }

  lemma BytesFit(c: seq<uint8>)
    ensures AllFit(c, 8)
  {
    PowersAtHand();
  }

  // ---- the packer's shift register ----

  /** The bits of the fields that have not been emitted are at the top of `sr`. */
  ghost predicate Writing(sr: uint16, out: seq<uint8>, fs: seq<Field>) {
    var bits, n := FieldBits(fs), 8 * |out|;
    && n <= |bits| <= n + 16
    && StreamOf(out, 8) == bits[..n] && Bits(sr, 16)[16 - (|bits| - n)..] == bits[n..]
  }

  /** `sr = (sr >> w) | (v << (16 - w))`: the register keeps 16 bits, so the field is
      cut to `w` bits, and the operands of `|` share no bit. */
  method Put(sr: uint16, v: int16, w: Width, ghost out: seq<uint8>, ghost fs: seq<Field>)
    returns (r: uint16, ghost more: seq<Field>)
    requires Writing(sr, out, fs) && |FieldBits(fs)| - 8 * |out| <= 16 - w
    ensures more == fs + [F(v, w)] && |FieldBits(more)| == |FieldBits(fs)| + w
    ensures Writing(r, out, more)
  {
    PutFits(sr, v, w);
    r := Shr(sr, w) + Shl(Low(v, w), 16 - w);
    more := fs + [F(v, w)];
    PutBits(sr, v, w);
    hide *;
    PutKeeps(sr, r, F(v, w), out, fs);
  }

  lemma PutKeeps(sr: uint16, r: uint16, f: Field, out: seq<uint8>, fs: seq<Field>)
    requires Writing(sr, out, fs) && |FieldBits(fs)| - 8 * |out| <= 16 - f.width
    requires Bits(r, 16) == Bits(sr, 16)[f.width..] + Bits(f.value, f.width)
    ensures |FieldBits(fs + [f])| == |FieldBits(fs)| + f.width
    ensures Writing(r, out, fs + [f])
  {
    hide FieldBits, Bits, StreamOf;
    var bits, added, n := FieldBits(fs), Bits(f.value, f.width), 8 * |out|;
    FieldBitsSnoc(fs, f);
    Slide(Bits(sr, 16), added, Bits(r, 16), bits, n);
    assert FieldBits(fs + [f]) == bits + added;
  }

  lemma PutFits(sr: uint16, v: int16, w: Width)
    ensures 0 <= Shr(sr, w) + Shl(Low(v, w), 16 - w) <= 0xFFFF
  {
    SixteenBits(sr);
    FitsShr(sr, 16, w);
    FitsAppend(Shr(sr, w), 16 - w, Low(v, w), w);
    SixteenBits(0);
  }

  lemma SixteenBits(sr: uint16)
    ensures Fits(sr, 16) && Shl(1, 16) == 0x1_0000
  {
    PowersAtHand();
    hide Shl;
    ShlTwice(1, 9);
    ShlTwice(1, 10);
    ShlTwice(1, 11);
    ShlTwice(1, 12);
    ShlTwice(1, 13);
    ShlTwice(1, 14);
    ShlTwice(1, 15);
    ShlTwice(1, 16);
  }

  lemma PutBits(sr: uint16, v: int16, w: Width)
    ensures 0 <= Shr(sr, w) + Shl(Low(v, w), 16 - w)
    ensures Bits(Shr(sr, w) + Shl(Low(v, w), 16 - w), 16) == Bits(sr, 16)[w..] + Bits(F(v, w).value, w)
  {
    hide Bits, Shl, Shr, Low, Fits;
    SixteenBits(sr);
    FitsShr(sr, 16, w);
    BitsAppend(Shr(sr, w), 16 - w, Low(v, w), w);
    BitsSplit(sr, w, 16 - w);
    AfterHead(Bits(sr, w), Bits(Shr(sr, w), 16 - w), w);
  }

  lemma AfterHead<T>(a: seq<T>, b: seq<T>, n: nat)
    requires |a| == n
    ensures (a + b)[n..] == b
  {
  }

  /** Shifting a window over a growing sequence. */
  lemma Slide<T>(window: seq<T>, added: seq<T>, moved: seq<T>, bits: seq<T>, n: nat)
    requires |added| <= |window| && moved == window[|added|..] + added
    requires n <= |bits| <= n + |window| - |added|
    requires window[|window| - (|bits| - n)..] == bits[n..]
    ensures |moved| == |window| && (bits + added)[..n] == bits[..n]
    ensures moved[|moved| - (|bits + added| - n)..] == (bits + added)[n..]
  {
    var p := |bits| - n;
    assert (bits + added)[n..] == bits[n..] + added;
    assert moved[|moved| - (p + |added|)..] == window[|window| - p..] + added;
  }

  /** The field of sample `k` of a block. */
  method PutSample(sr: uint16, x: seq<int16>, k: nat, ghost out: seq<uint8>, ghost fs0: seq<Field>, ghost fs: seq<Field>)
    returns (r: uint16, ghost more: seq<Field>)
    requires k < |x| && fs == fs0 + SampleFields(x[..k])
    requires Writing(sr, out, fs) && |FieldBits(fs)| - 8 * |out| <= 13
    ensures more == fs0 + SampleFields(x[..k + 1]) && |FieldBits(more)| == |FieldBits(fs)| + 3
    ensures Writing(r, out, more)
  {
    hide Writing, FieldBits, F;
    r, more := Put(sr, x[k], 3, out, fs);
    assert SampleFields(x[..k + 1]) == SampleFields(x[..k]) + [F(x[k], 3)];
  }

  /** `*c++ = (uint8_t) (sr >> k)`, where `k` puts the oldest pending bit lowest. */
  method Emit(sr: uint16, k: nat, c: array<uint8>, n: nat, ghost fs: seq<Field>) returns (m: nat)
    requires n < c.Length && k <= 8
    requires Writing(sr, c[..n], fs) && |FieldBits(fs)| == 8 * n + 16 - k
    modifies c
    ensures m == n + 1 && Writing(sr, c[..m], fs)
  {
    hide FieldBits, Bits, Shl, Shr, StreamOf, Low;
    EmittedByte(sr, k);
    ghost var out := c[..n];
    var byte: uint8 := Low(Shr(sr, k), 8);
    c[n] := byte;
    m := n + 1;
    assert c[..m] == out + [byte];
    StreamSnoc(out, byte, 8);
    NextEight(Bits(sr, 16), k, FieldBits(fs), 8 * n);
  }

  lemma EmittedByte(sr: uint16, k: nat)
    requires k <= 8
    ensures 0 <= Shr(sr, k) && 0 <= Low(Shr(sr, k), 8) <= 0xFF
    ensures Bits(Low(Shr(sr, k), 8), 8) == Bits(sr, 16)[k..k + 8]
  {
    hide Bits, Shr, Low;
    PowersAtHand();
    BitsSplit(sr, k, 16 - k);
    var v := Shr(sr, k);
    BitsOfLow(v, 8);
    BitsSplit(v, 8, 8 - k);
    Middle(Bits(sr, k), Bits(v, 8), Bits(Shr(v, 8), 8 - k));
  }

  lemma Middle<T>(a: seq<T>, b: seq<T>, c: seq<T>)
    ensures (a + (b + c))[|a|..|a| + |b|] == b
  {
  }

  lemma NextEight<T>(window: seq<T>, k: nat, bits: seq<T>, n: nat)
    requires |window| == 16 && k <= 8 && |bits| == n + 16 - k
    requires window[k..] == bits[n..]
    ensures bits[..n] + window[k..k + 8] == bits[..n + 8] && window[k + 8..] == bits[n + 8..]
  {
    assert window[k..k + 8] == window[k..][..8] == bits[n..][..8] == bits[n..n + 8];
    assert window[k + 8..] == window[k..][8..] == bits[n..][8..];
  }

  // ---- the packer ----

  method PackFirstLars(sr0: uint16, a: seq<int16>, c: array<uint8>, ghost fs0: seq<Field>)
    returns (sr: uint16, n: nat, ghost fs: seq<Field>)
    requires |a| == 8 && c.Length >= 65
    requires Writing(sr0, c[..0], fs0) && |FieldBits(fs0)| == 0
    modifies c
    ensures n == 4 && Writing(sr, c[..n], fs) && |FieldBits(fs)| == 8 * n + 4
    ensures fs == fs0 + LarFields(a)
  {
    hide Writing, FieldBits, F;
    sr, n, fs := sr0, 0, fs0;
    sr, fs := Put(sr, a[0], 6, c[..n], fs);
    sr, fs := Put(sr, a[1], 6, c[..n], fs);
    n := Emit(sr, 4, c, n, fs);
    sr, fs := Put(sr, a[2], 5, c[..n], fs);
    n := Emit(sr, 7, c, n, fs);
    sr, fs := Put(sr, a[3], 5, c[..n], fs);
    sr, fs := Put(sr, a[4], 4, c[..n], fs);
    n := Emit(sr, 6, c, n, fs);
    sr, fs := Put(sr, a[5], 4, c[..n], fs);
    sr, fs := Put(sr, a[6], 3, c[..n], fs);
    n := Emit(sr, 7, c, n, fs);
    sr, fs := Put(sr, a[7], 3, c[..n], fs);
  }

  method PackFirstHeader(sr0: uint16, s: SubFrame, c: array<uint8>, n0: nat, ghost fs0: seq<Field>)
    returns (sr: uint16, n: nat, ghost fs: seq<Field>)
    requires n0 + 7 <= c.Length
    requires Writing(sr0, c[..n0], fs0) && |FieldBits(fs0)| == 8 * n0 + 4
    modifies c
    ensures n == n0 + 2 && Writing(sr, c[..n], fs) && |FieldBits(fs)| == 8 * n + 5
    ensures fs == fs0 + Header(s)
  {
    hide Writing, FieldBits, F;
    sr, n, fs := sr0, n0, fs0;
    sr, fs := Put(sr, s.Nc, 7, c[..n], fs);
    n := Emit(sr, 5, c, n, fs);
    sr, fs := Put(sr, s.bc, 2, c[..n], fs);
    sr, fs := Put(sr, s.Mc, 2, c[..n], fs);
    sr, fs := Put(sr, s.xmaxc, 6, c[..n], fs);
    n := Emit(sr, 3, c, n, fs);
  }

  method PackFirstSamples(sr0: uint16, x: seq<int16>, c: array<uint8>, n0: nat, ghost fs0: seq<Field>)
    returns (sr: uint16, n: nat, ghost fs: seq<Field>)
    requires |x| == 13 && n0 + 5 <= c.Length
    requires Writing(sr0, c[..n0], fs0) && |FieldBits(fs0)| == 8 * n0 + 5
    modifies c
    ensures n == n0 + 5 && Writing(sr, c[..n], fs) && |FieldBits(fs)| == 8 * n + 4
    ensures fs == fs0 + SampleFields(x)
  {
    hide Writing, FieldBits, SampleFields;
    NoSamples(fs0);
    sr, n, fs := sr0, n0, fs0;
    assert x[..0] == [] && x[..13] == x;
    sr, fs := PutSample(sr, x, 0, c[..n], fs0, fs);
    n := Emit(sr, 8, c, n, fs);
    sr, fs := PutSample(sr, x, 1, c[..n], fs0, fs);
    sr, fs := PutSample(sr, x, 2, c[..n], fs0, fs);
    sr, fs := PutSample(sr, x, 3, c[..n], fs0, fs);
    n := Emit(sr, 7, c, n, fs);
    sr, fs := PutSample(sr, x, 4, c[..n], fs0, fs);
    sr, fs := PutSample(sr, x, 5, c[..n], fs0, fs);
    sr, fs := PutSample(sr, x, 6, c[..n], fs0, fs);
    n := Emit(sr, 6, c, n, fs);
    sr, fs := PutSample(sr, x, 7, c[..n], fs0, fs);
    sr, fs := PutSample(sr, x, 8, c[..n], fs0, fs);
    n := Emit(sr, 8, c, n, fs);
    sr, fs := PutSample(sr, x, 9, c[..n], fs0, fs);
    sr, fs := PutSample(sr, x, 10, c[..n], fs0, fs);
    sr, fs := PutSample(sr, x, 11, c[..n], fs0, fs);
    n := Emit(sr, 7, c, n, fs);
    sr, fs := PutSample(sr, x, 12, c[..n], fs0, fs);
  }

  method PackFirstSub(sr0: uint16, s: SubFrame, c: array<uint8>, n0: nat, ghost fs0: seq<Field>)
    returns (sr: uint16, n: nat, ghost fs: seq<Field>)
    requires |s.xMc| == 13 && n0 + 7 <= c.Length
    requires Writing(sr0, c[..n0], fs0) && |FieldBits(fs0)| == 8 * n0 + 4
    modifies c
    ensures n == n0 + 7 && Writing(sr, c[..n], fs) && |FieldBits(fs)| == 8 * n + 4
    ensures fs == fs0 + SubFields(s)
  {
    hide Writing, FieldBits, Header, SampleFields;
    sr, n, fs := PackFirstHeader(sr0, s, c, n0, fs0);
    sr, n, fs := PackFirstSamples(sr, s.xMc, c, n, fs);
    Associate(fs0, Header(s), SampleFields(s.xMc));
  }

  method PackSecondLars(sr0: uint16, a: seq<int16>, c: array<uint8>, n0: nat, ghost fs0: seq<Field>)
    returns (sr: uint16, n: nat, ghost fs: seq<Field>)
    requires |a| == 8 && n0 + 5 <= c.Length
    requires Writing(sr0, c[..n0], fs0) && |FieldBits(fs0)| == 8 * n0 + 4
    modifies c
    ensures n == n0 + 5 && Writing(sr, c[..n], fs) && |FieldBits(fs)| == 8 * n
    ensures fs == fs0 + LarFields(a)
  {
    hide Writing, FieldBits, F;
    sr, n, fs := sr0, n0, fs0;
    sr, fs := Put(sr, a[0], 6, c[..n], fs);
    n := Emit(sr, 6, c, n, fs);
    sr, fs := Put(sr, a[1], 6, c[..n], fs);
    n := Emit(sr, 8, c, n, fs);
    sr, fs := Put(sr, a[2], 5, c[..n], fs);
    sr, fs := Put(sr, a[3], 5, c[..n], fs);
    n := Emit(sr, 6, c, n, fs);
    sr, fs := Put(sr, a[4], 4, c[..n], fs);
    sr, fs := Put(sr, a[5], 4, c[..n], fs);
    n := Emit(sr, 6, c, n, fs);
    sr, fs := Put(sr, a[6], 3, c[..n], fs);
    sr, fs := Put(sr, a[7], 3, c[..n], fs);
    n := Emit(sr, 8, c, n, fs);
  }

  method PackSecondHeader(sr0: uint16, s: SubFrame, c: array<uint8>, n0: nat, ghost fs0: seq<Field>)
    returns (sr: uint16, n: nat, ghost fs: seq<Field>)
    requires n0 + 7 <= c.Length
    requires Writing(sr0, c[..n0], fs0) && |FieldBits(fs0)| == 8 * n0
    modifies c
    ensures n == n0 + 2 && Writing(sr, c[..n], fs) && |FieldBits(fs)| == 8 * n + 1
    ensures fs == fs0 + Header(s)
  {
    hide Writing, FieldBits, F;
    sr, n, fs := sr0, n0, fs0;
    sr, fs := Put(sr, s.Nc, 7, c[..n], fs);
    sr, fs := Put(sr, s.bc, 2, c[..n], fs);
    n := Emit(sr, 7, c, n, fs);
    sr, fs := Put(sr, s.Mc, 2, c[..n], fs);
    sr, fs := Put(sr, s.xmaxc, 6, c[..n], fs);
    n := Emit(sr, 7, c, n, fs);
  }

  method PackSecondSamples(sr0: uint16, x: seq<int16>, c: array<uint8>, n0: nat, ghost fs0: seq<Field>)
    returns (sr: uint16, n: nat, ghost fs: seq<Field>)
    requires |x| == 13 && n0 + 5 <= c.Length
    requires Writing(sr0, c[..n0], fs0) && |FieldBits(fs0)| == 8 * n0 + 1
    modifies c
    ensures n == n0 + 5 && Writing(sr, c[..n], fs) && |FieldBits(fs)| == 8 * n
    ensures fs == fs0 + SampleFields(x)
  {
    hide Writing, FieldBits, SampleFields;
    NoSamples(fs0);
    sr, n, fs := sr0, n0, fs0;
    assert x[..0] == [] && x[..13] == x;
    sr, fs := PutSample(sr, x, 0, c[..n], fs0, fs);
    sr, fs := PutSample(sr, x, 1, c[..n], fs0, fs);
    sr, fs := PutSample(sr, x, 2, c[..n], fs0, fs);
    n := Emit(sr, 6, c, n, fs);
    sr, fs := PutSample(sr, x, 3, c[..n], fs0, fs);
    sr, fs := PutSample(sr, x, 4, c[..n], fs0, fs);
    n := Emit(sr, 8, c, n, fs);
    sr, fs := PutSample(sr, x, 5, c[..n], fs0, fs);
    sr, fs := PutSample(sr, x, 6, c[..n], fs0, fs);
    sr, fs := PutSample(sr, x, 7, c[..n], fs0, fs);
    n := Emit(sr, 7, c, n, fs);
    sr, fs := PutSample(sr, x, 8, c[..n], fs0, fs);
    sr, fs := PutSample(sr, x, 9, c[..n], fs0, fs);
    sr, fs := PutSample(sr, x, 10, c[..n], fs0, fs);
    n := Emit(sr, 6, c, n, fs);
    sr, fs := PutSample(sr, x, 11, c[..n], fs0, fs);
    sr, fs := PutSample(sr, x, 12, c[..n], fs0, fs);
    n := Emit(sr, 8, c, n, fs);
  }

  method PackSecondSub(sr0: uint16, s: SubFrame, c: array<uint8>, n0: nat, ghost fs0: seq<Field>)
    returns (sr: uint16, n: nat, ghost fs: seq<Field>)
    requires |s.xMc| == 13 && n0 + 7 <= c.Length
    requires Writing(sr0, c[..n0], fs0) && |FieldBits(fs0)| == 8 * n0
    modifies c
    ensures n == n0 + 7 && Writing(sr, c[..n], fs) && |FieldBits(fs)| == 8 * n
    ensures fs == fs0 + SubFields(s)
  {
    hide Writing, FieldBits, Header, SampleFields;
    sr, n, fs := PackSecondHeader(sr0, s, c, n0, fs0);
    sr, n, fs := PackSecondSamples(sr, s.xMc, c, n, fs);
    Associate(fs0, Header(s), SampleFields(s.xMc));
  }

  lemma NothingWritten()
    ensures Writing(0, [], []) && |FieldBits([])| == 0
  {
  }

  lemma AllWritten(sr: uint16, out: seq<uint8>, fs: seq<Field>)
    requires Writing(sr, out, fs) && |FieldBits(fs)| == 8 * |out|
    ensures StreamOf(out, 8) == FieldBits(fs)
  {
  }

  /** gsm0610_pack_wav49. */
  method Gsm0610PackWav49(c: array<uint8>, s0: Frame, s1: Frame) returns (bytes: nat)
    requires c.Length >= 65 && s0.Complete() && s1.Complete()
    modifies c
    ensures bytes == 65 && Carries(c[..65], s0, s1)
  {
    hide Writing, FieldBits, LarFields, SubFields;
    NothingWritten();
    assert c[..0] == [];
    ghost var fs: seq<Field> := [];
    var sr: uint16, n: nat;
    sr, n, fs := PackFirstLars(0, s0.LARc, c, fs);
    var i := 0;
    while i < 4
      invariant 0 <= i <= 4 && n == 4 + 7 * i
      invariant Writing(sr, c[..n], fs) && |FieldBits(fs)| == 8 * n + 4
      invariant fs == LarFields(s0.LARc) + SubsFields(s0.sub, i)
    {
      Associate(LarFields(s0.LARc), SubsFields(s0.sub, i), SubFields(s0.sub[i]));
      sr, n, fs := PackFirstSub(sr, s0.sub[i], c, n, fs);
      i := i + 1;
    }
    ghost var first := FrameFields(s0);
    sr, n, fs := PackSecondLars(sr, s1.LARc, c, n, fs);
    i := 0;
    while i < 4
      invariant 0 <= i <= 4 && n == 37 + 7 * i
      invariant Writing(sr, c[..n], fs) && |FieldBits(fs)| == 8 * n
      invariant fs == first + (LarFields(s1.LARc) + SubsFields(s1.sub, i))
    {
      Associate(LarFields(s1.LARc), SubsFields(s1.sub, i), SubFields(s1.sub[i]));
      Associate(first, LarFields(s1.LARc) + SubsFields(s1.sub, i), SubFields(s1.sub[i]));
      sr, n, fs := PackSecondSub(sr, s1.sub[i], c, n, fs);
      i := i + 1;
    }
    AllWritten(sr, c[..65], fs);
    bytes := 65;
  }

  // ---- the unpacker's shift register ----

  /** The register holds exactly the fetched bits that are not yet in a field. */
  ghost predicate Reading(sr: uint16, got: seq<uint8>, fs: seq<Field>) {
    var p := 8 * |got| - |FieldBits(fs)|;
    && 0 <= p <= 16 && Fits(sr, p)
    && StreamOf(got, 8) == FieldBits(fs) + Bits(sr, p)
  }

  /** `sr = *c++`, when no bit is pending. */
  method Load(c: seq<uint8>, n: nat, ghost sr: uint16, ghost fs: seq<Field>) returns (r: uint16, m: nat)
    requires n < |c| && |FieldBits(fs)| == 8 * n && Reading(sr, c[..n], fs)
    ensures m == n + 1 && Reading(r, c[..m], fs)
  {
    r := c[n];
    m := n + 1;
    NextByte(sr, c, n, fs, 0);
    assert Shl(c[n], 0) == c[n] && sr == 0;
  }

  /** `sr |= (uint16_t) *c++ << k`, with `k` bits pending. */
  method Fetch(sr: uint16, k: nat, c: seq<uint8>, n: nat, ghost fs: seq<Field>) returns (r: uint16, m: nat)
    requires n < |c| && k <= 8 && |FieldBits(fs)| == 8 * n - k && Reading(sr, c[..n], fs)
    ensures m == n + 1 && Reading(r, c[..m], fs)
  {
    hide Reading, FieldBits, Shl;
    NextByte(sr, c, n, fs, k);
    r := sr + Shl(c[n], k);
    m := n + 1;
  }

  lemma NextByte(sr: uint16, c: seq<uint8>, n: nat, fs: seq<Field>, k: nat)
    requires n < |c| && k <= 8 && |FieldBits(fs)| == 8 * n - k && Reading(sr, c[..n], fs)
    ensures 0 <= sr + Shl(c[n], k) <= 0xFFFF && Reading(sr + Shl(c[n], k), c[..n + 1], fs)
  {
    hide FieldBits, StreamOf, Shl, Bits, Fits;
    ByteFits(c[n]);
    BitsAppend(sr, k, c[n], 8);
    FitsAppend(sr, k, c[n], 8);
    FitsMore(sr + Shl(c[n], k), k + 8);
    assert c[..n + 1] == c[..n] + [c[n]];
    StreamSnoc(c[..n], c[n], 8);
    Associate(FieldBits(fs), Bits(sr, k), Bits(c[n], 8));
  }

  lemma FitsMore(v: nat, n: nat)
    requires n <= 16 && Fits(v, n)
    ensures v <= 0xFFFF
  {
    SixteenBits(0);
    ShlFromOne(16 - n, n);
    ShlGrows(1, 16 - n);
    ShlIsMonotone(1, Shl(1, 16 - n), n);
  }

  /** `v = sr & mask; sr >>= w`. */
  method Take(sr: uint16, w: Width, ghost got: seq<uint8>, ghost fs: seq<Field>)
    returns (v: int16, r: uint16, ghost more: seq<Field>)
    requires Reading(sr, got, fs) && 8 * |got| - |FieldBits(fs)| >= w
    ensures more == fs + [F(v, w)] && |FieldBits(more)| == |FieldBits(fs)| + w
    ensures Fits(F(v, w).value, w) && v == F(v, w).value
    ensures Reading(r, got, more)
  {
    hide FieldBits, StreamOf, Shl, Shr, Low, Bits, Fits;
    ghost var p := 8 * |got| - |FieldBits(fs)|;
    TakenField(sr, w, p);
    v, r := Low(sr, w), Shr(sr, w);
    more := fs + [F(v, w)];
    LowOfFitting(v, w);
    FieldBitsSnoc(fs, F(v, w));
    Associate(FieldBits(fs), Bits(v, w), Bits(r, p - w));
  }

  /** The next sample of a block. */
  method TakeSample(x: seq<int16>, sr: uint16, ghost got: seq<uint8>, ghost fs0: seq<Field>, ghost fs: seq<Field>)
    returns (y: seq<int16>, r: uint16, ghost more: seq<Field>)
    requires SamplesInRange(x) && fs == fs0 + SampleFields(x)
    requires Reading(sr, got, fs) && 8 * |got| - |FieldBits(fs)| >= 3
    ensures |y| == |x| + 1 && SamplesInRange(y)
    ensures more == fs0 + SampleFields(y) && |FieldBits(more)| == |FieldBits(fs)| + 3
    ensures Reading(r, got, more)
  {
    hide Reading, FieldBits, F;
    var v;
    v, r, more := Take(sr, 3, got, fs);
    PowersAtHand();
    y := x + [v];
    assert SampleFields(y) == SampleFields(x) + [F(v, 3)];
  }

  lemma TakenField(sr: uint16, w: Width, p: nat)
    requires w <= p <= 16 && Fits(sr, p)
    ensures Low(sr, w) < 128 && 0 <= Shr(sr, w) <= 0xFFFF
    ensures Fits(Shr(sr, w), p - w)
    ensures Bits(sr, p) == Bits(Low(sr, w), w) + Bits(Shr(sr, w), p - w)
  {
    hide Shl, Shr, Low, Bits, Fits;
    TakenFits(sr, w);
    FitsShr(sr, p, w);
    FitsMore(Shr(sr, w), p - w);
    BitsSplit(sr, w, p - w);
    BitsOfLow(sr, w);
  }

  lemma TakenFits(v: nat, w: Width)
    ensures Low(v, w) < 128
  {
    hide Shl, Low;
    PowersAtHand();
    assert Fits(Low(v, w), w);
  }

  // ---- the unpacker ----

  lemma TakenLars(a: seq<int16>)
    requires |a| == 8
    requires forall i :: 0 <= i < 8 ==> a[i] == LarFields(a)[i].value
    ensures LarcInRange(a)
  {
    PowersAtHand();
    var fs := LarFields(a);
    assert Fits(fs[0].value, 6) && Fits(fs[1].value, 6) && Fits(fs[2].value, 5) && Fits(fs[3].value, 5);
    assert Fits(fs[4].value, 4) && Fits(fs[5].value, 4) && Fits(fs[6].value, 3) && Fits(fs[7].value, 3);
  }

  predicate HeaderInRange(Nc: int16, bc: int16, Mc: int16, xmaxc: int16) {
    0 <= Nc <= 127 && 0 <= bc <= 3 && 0 <= Mc <= 3 && 0 <= xmaxc <= 63
  }

  predicate SamplesInRange(x: seq<int16>) {
    forall i :: 0 <= i < |x| ==> 0 <= x[i] <= 7
  }

  lemma TakenHeader(Nc: int16, bc: int16, Mc: int16, xmaxc: int16)
    requires Nc == F(Nc, 7).value && bc == F(bc, 2).value && Mc == F(Mc, 2).value && xmaxc == F(xmaxc, 6).value
    ensures HeaderInRange(Nc, bc, Mc, xmaxc)
  {
    hide F, Shl;
    PowersAtHand();
    assert Fits(F(Nc, 7).value, 7) && Fits(F(bc, 2).value, 2) && Fits(F(Mc, 2).value, 2) && Fits(F(xmaxc, 6).value, 6);
  }

  lemma NoSamples(fs: seq<Field>)
    ensures SamplesInRange([]) && fs == fs + SampleFields([])
  {
  }

  method UnpackFirstLars(c: seq<uint8>, ghost fs0: seq<Field>)
    returns (a: seq<int16>, sr: uint16, n: nat, ghost fs: seq<Field>)
    requires |c| == 65 && Reading(0, c[..0], fs0) && |FieldBits(fs0)| == 0
    ensures n == 5 && Reading(sr, c[..n], fs) && |FieldBits(fs)| == 8 * n - 4
    ensures LarcInRange(a) && fs == fs0 + LarFields(a)
  {
    hide Reading, FieldBits, F, Fits;
    sr, n, fs := 0, 0, fs0;
    var a0, a1, a2, a3, a4, a5, a6, a7;
    sr, n := Load(c, n, sr, fs);
    a0, sr, fs := Take(sr, 6, c[..n], fs);
    sr, n := Fetch(sr, 2, c, n, fs);
    a1, sr, fs := Take(sr, 6, c[..n], fs);
    sr, n := Fetch(sr, 4, c, n, fs);
    a2, sr, fs := Take(sr, 5, c[..n], fs);
    a3, sr, fs := Take(sr, 5, c[..n], fs);
    sr, n := Fetch(sr, 2, c, n, fs);
    a4, sr, fs := Take(sr, 4, c[..n], fs);
    a5, sr, fs := Take(sr, 4, c[..n], fs);
    sr, n := Fetch(sr, 2, c, n, fs);
    a6, sr, fs := Take(sr, 3, c[..n], fs);
    a7, sr, fs := Take(sr, 3, c[..n], fs);
    a := [a0, a1, a2, a3, a4, a5, a6, a7];
    TakenLars(a);
  }

  method UnpackFirstHeader(c: seq<uint8>, n0: nat, sr0: uint16, ghost fs0: seq<Field>)
    returns (Nc: int16, bc: int16, Mc: int16, xmaxc: int16, sr: uint16, n: nat, ghost fs: seq<Field>)
    requires n0 + 7 <= |c| && Reading(sr0, c[..n0], fs0) && |FieldBits(fs0)| == 8 * n0 - 4
    ensures n == n0 + 2 && Reading(sr, c[..n], fs) && |FieldBits(fs)| == 8 * n - 3
    ensures HeaderInRange(Nc, bc, Mc, xmaxc) && fs == fs0 + Header(SubFrame(Nc, bc, Mc, xmaxc, []))
  {
    hide Reading, FieldBits, F, Fits;
    sr, n, fs := sr0, n0, fs0;
    sr, n := Fetch(sr, 4, c, n, fs);
    Nc, sr, fs := Take(sr, 7, c[..n], fs);
    bc, sr, fs := Take(sr, 2, c[..n], fs);
    Mc, sr, fs := Take(sr, 2, c[..n], fs);
    sr, n := Fetch(sr, 1, c, n, fs);
    xmaxc, sr, fs := Take(sr, 6, c[..n], fs);
    TakenHeader(Nc, bc, Mc, xmaxc);
  }

  method UnpackFirstSamples(c: seq<uint8>, n0: nat, sr0: uint16, ghost fs0: seq<Field>)
    returns (x: seq<int16>, sr: uint16, n: nat, ghost fs: seq<Field>)
    requires n0 + 5 <= |c| && Reading(sr0, c[..n0], fs0) && |FieldBits(fs0)| == 8 * n0 - 3
    ensures n == n0 + 5 && Reading(sr, c[..n], fs) && |FieldBits(fs)| == 8 * n - 4
    ensures |x| == 13 && SamplesInRange(x) && fs == fs0 + SampleFields(x)
  {
    hide Reading, FieldBits, SampleFields, SamplesInRange;
    NoSamples(fs0);
    sr, n, fs, x := sr0, n0, fs0, [];
    x, sr, fs := TakeSample(x, sr, c[..n], fs0, fs);
    sr, n := Load(c, n, sr, fs);
    x, sr, fs := TakeSample(x, sr, c[..n], fs0, fs);
    x, sr, fs := TakeSample(x, sr, c[..n], fs0, fs);
    sr, n := Fetch(sr, 2, c, n, fs);
    x, sr, fs := TakeSample(x, sr, c[..n], fs0, fs);
    x, sr, fs := TakeSample(x, sr, c[..n], fs0, fs);
    x, sr, fs := TakeSample(x, sr, c[..n], fs0, fs);
    sr, n := Fetch(sr, 1, c, n, fs);
    x, sr, fs := TakeSample(x, sr, c[..n], fs0, fs);
    x, sr, fs := TakeSample(x, sr, c[..n], fs0, fs);
    x, sr, fs := TakeSample(x, sr, c[..n], fs0, fs);
    sr, n := Load(c, n, sr, fs);
    x, sr, fs := TakeSample(x, sr, c[..n], fs0, fs);
    x, sr, fs := TakeSample(x, sr, c[..n], fs0, fs);
    sr, n := Fetch(sr, 2, c, n, fs);
    x, sr, fs := TakeSample(x, sr, c[..n], fs0, fs);
    x, sr, fs := TakeSample(x, sr, c[..n], fs0, fs);
  }

  method UnpackFirstSub(c: seq<uint8>, n0: nat, sr0: uint16, ghost fs0: seq<Field>)
    returns (s: SubFrame, sr: uint16, n: nat, ghost fs: seq<Field>)
    requires n0 + 7 <= |c| && Reading(sr0, c[..n0], fs0) && |FieldBits(fs0)| == 8 * n0 - 4
    ensures n == n0 + 7 && Reading(sr, c[..n], fs) && |FieldBits(fs)| == 8 * n - 4
    ensures s.InRange() && fs == fs0 + SubFields(s)
  {
    hide Reading, FieldBits, F, SampleFields;
    var Nc, bc, Mc, xmaxc, x;
    Nc, bc, Mc, xmaxc, sr, n, fs := UnpackFirstHeader(c, n0, sr0, fs0);
    x, sr, n, fs := UnpackFirstSamples(c, n, sr, fs);
    s := SubFrame(Nc, bc, Mc, xmaxc, x);
    Associate(fs0, Header(s), SampleFields(x));
  }

  method UnpackSecondLars(c: seq<uint8>, n0: nat, sr0: uint16, ghost fs0: seq<Field>)
    returns (a: seq<int16>, sr: uint16, n: nat, ghost fs: seq<Field>)
    requires n0 + 4 <= |c| && Reading(sr0, c[..n0], fs0) && |FieldBits(fs0)| == 8 * n0 - 4
    ensures n == n0 + 4 && Reading(sr, c[..n], fs) && |FieldBits(fs)| == 8 * n
    ensures LarcInRange(a) && fs == fs0 + LarFields(a)
  {
    hide Reading, FieldBits, F, Fits;
    sr, n, fs := sr0, n0, fs0;
    var a0, a1, a2, a3, a4, a5, a6, a7;
    sr, n := Fetch(sr, 4, c, n, fs);
    a0, sr, fs := Take(sr, 6, c[..n], fs);
    a1, sr, fs := Take(sr, 6, c[..n], fs);
    sr, n := Load(c, n, sr, fs);
    a2, sr, fs := Take(sr, 5, c[..n], fs);
    sr, n := Fetch(sr, 3, c, n, fs);
    a3, sr, fs := Take(sr, 5, c[..n], fs);
    a4, sr, fs := Take(sr, 4, c[..n], fs);
    sr, n := Fetch(sr, 2, c, n, fs);
    a5, sr, fs := Take(sr, 4, c[..n], fs);
    a6, sr, fs := Take(sr, 3, c[..n], fs);
    a7, sr, fs := Take(sr, 3, c[..n], fs);
    a := [a0, a1, a2, a3, a4, a5, a6, a7];
    TakenLars(a);
  }

  method UnpackSecondHeader(c: seq<uint8>, n0: nat, sr0: uint16, ghost fs0: seq<Field>)
    returns (Nc: int16, bc: int16, Mc: int16, xmaxc: int16, sr: uint16, n: nat, ghost fs: seq<Field>)
    requires n0 + 7 <= |c| && Reading(sr0, c[..n0], fs0) && |FieldBits(fs0)| == 8 * n0
    ensures n == n0 + 3 && Reading(sr, c[..n], fs) && |FieldBits(fs)| == 8 * n - 7
    ensures HeaderInRange(Nc, bc, Mc, xmaxc) && fs == fs0 + Header(SubFrame(Nc, bc, Mc, xmaxc, []))
  {
    hide Reading, FieldBits, F, Fits;
    sr, n, fs := sr0, n0, fs0;
    sr, n := Load(c, n, sr, fs);
    Nc, sr, fs := Take(sr, 7, c[..n], fs);
    sr, n := Fetch(sr, 1, c, n, fs);
    bc, sr, fs := Take(sr, 2, c[..n], fs);
    Mc, sr, fs := Take(sr, 2, c[..n], fs);
    sr, n := Fetch(sr, 5, c, n, fs);
    xmaxc, sr, fs := Take(sr, 6, c[..n], fs);
    TakenHeader(Nc, bc, Mc, xmaxc);
  }

  method UnpackSecondSamples(c: seq<uint8>, n0: nat, sr0: uint16, ghost fs0: seq<Field>)
    returns (x: seq<int16>, sr: uint16, n: nat, ghost fs: seq<Field>)
    requires n0 + 4 <= |c| && Reading(sr0, c[..n0], fs0) && |FieldBits(fs0)| == 8 * n0 - 7
    ensures n == n0 + 4 && Reading(sr, c[..n], fs) && |FieldBits(fs)| == 8 * n
    ensures |x| == 13 && SamplesInRange(x) && fs == fs0 + SampleFields(x)
  {
    hide Reading, FieldBits, SampleFields, SamplesInRange;
    NoSamples(fs0);
    sr, n, fs, x := sr0, n0, fs0, [];
    x, sr, fs := TakeSample(x, sr, c[..n], fs0, fs);
    x, sr, fs := TakeSample(x, sr, c[..n], fs0, fs);
    sr, n := Fetch(sr, 1, c, n, fs);
    x, sr, fs := TakeSample(x, sr, c[..n], fs0, fs);
    x, sr, fs := TakeSample(x, sr, c[..n], fs0, fs);
    x, sr, fs := TakeSample(x, sr, c[..n], fs0, fs);
    sr, n := Load(c, n, sr, fs);
    x, sr, fs := TakeSample(x, sr, c[..n], fs0, fs);
    x, sr, fs := TakeSample(x, sr, c[..n], fs0, fs);
    sr, n := Fetch(sr, 2, c, n, fs);
    x, sr, fs := TakeSample(x, sr, c[..n], fs0, fs);
    x, sr, fs := TakeSample(x, sr, c[..n], fs0, fs);
    x, sr, fs := TakeSample(x, sr, c[..n], fs0, fs);
    sr, n := Fetch(sr, 1, c, n, fs);
    x, sr, fs := TakeSample(x, sr, c[..n], fs0, fs);
    x, sr, fs := TakeSample(x, sr, c[..n], fs0, fs);
    x, sr, fs := TakeSample(x, sr, c[..n], fs0, fs);
  }

  method UnpackSecondSub(c: seq<uint8>, n0: nat, sr0: uint16, ghost fs0: seq<Field>)
    returns (s: SubFrame, sr: uint16, n: nat, ghost fs: seq<Field>)
    requires n0 + 7 <= |c| && Reading(sr0, c[..n0], fs0) && |FieldBits(fs0)| == 8 * n0
    ensures n == n0 + 7 && Reading(sr, c[..n], fs) && |FieldBits(fs)| == 8 * n
    ensures s.InRange() && fs == fs0 + SubFields(s)
  {
    hide Reading, FieldBits, F, SampleFields;
    var Nc, bc, Mc, xmaxc, x;
    Nc, bc, Mc, xmaxc, sr, n, fs := UnpackSecondHeader(c, n0, sr0, fs0);
    x, sr, n, fs := UnpackSecondSamples(c, n, sr, fs);
    s := SubFrame(Nc, bc, Mc, xmaxc, x);
    Associate(fs0, Header(s), SampleFields(x));
  }

  lemma NothingRead()
    ensures Reading(0, [], []) && |FieldBits([])| == 0
  {
  }

  lemma AllRead(sr: uint16, got: seq<uint8>, fs: seq<Field>)
    requires Reading(sr, got, fs) && |FieldBits(fs)| == 8 * |got|
    ensures StreamOf(got, 8) == FieldBits(fs)
  {
    assert FieldBits(fs) + Bits(sr, 0) == FieldBits(fs);
  }

  /** gsm0610_unpack_wav49: every block is read as two in-range frames. */
  method Gsm0610UnpackWav49(c: seq<uint8>) returns (s0: Frame, s1: Frame, bytes: nat)
    requires |c| >= 65
    ensures bytes == 65 && s0.InRange() && s1.InRange() && Carries(c[..65], s0, s1)
  {
    hide Reading, FieldBits, LarFields, SubFields, SubFrame.InRange;
    NothingRead();
    var block := c[..65];
    assert block[..0] == [] && block[..65] == block;
    ghost var fs: seq<Field> := [];
    var LARc: seq<int16>, sr: uint16, n: nat, one: SubFrame;
    LARc, sr, n, fs := UnpackFirstLars(block, fs);
    var sub: seq<SubFrame> := [];
    assert fs == LarFields(LARc) + SubsFields(sub, 0);
    var i := 0;
    while i < 4
      invariant 0 <= i <= 4 && n == 5 + 7 * i && |sub| == i
      invariant forall k :: 0 <= k < i ==> sub[k].InRange()
      invariant Reading(sr, block[..n], fs) && |FieldBits(fs)| == 8 * n - 4
      invariant fs == LarFields(LARc) + SubsFields(sub, i)
    {
      one, sr, n, fs := UnpackFirstSub(block, n, sr, fs);
      AppendSub(LarFields(LARc), sub, one);
      sub := sub + [one];
      i := i + 1;
    }
    s0 := Frame(LARc, sub);
    CompleteFrame(s0);
    ghost var first := FrameFields(s0);
    LARc, sr, n, fs := UnpackSecondLars(block, n, sr, fs);
    sub := [];
    i := 0;
    assert fs == first + (LarFields(LARc) + SubsFields(sub, 0));
    while i < 4
      invariant 0 <= i <= 4 && n == 37 + 7 * i && |sub| == i
      invariant forall k :: 0 <= k < i ==> sub[k].InRange()
      invariant Reading(sr, block[..n], fs) && |FieldBits(fs)| == 8 * n
      invariant fs == first + (LarFields(LARc) + SubsFields(sub, i))
    {
      one, sr, n, fs := UnpackSecondSub(block, n, sr, fs);
      Associate(first, LarFields(LARc) + SubsFields(sub, i), SubFields(one));
      AppendSub(LarFields(LARc), sub, one);
      sub := sub + [one];
      i := i + 1;
    }
    s1 := Frame(LARc, sub);
    CompleteFrame(s1);
    AllRead(sr, block, fs);
    bytes := 65;
  }

  lemma AppendSub(fs: seq<Field>, sub: seq<SubFrame>, s: SubFrame)
    ensures fs + SubsFields(sub + [s], |sub| + 1) == (fs + SubsFields(sub, |sub|)) + SubFields(s)
  {
    SubsFieldsOfPrefix(sub, s, |sub|);
  }

  lemma {:induction false} SubsFieldsOfPrefix(sub: seq<SubFrame>, s: SubFrame, n: nat)
    requires n <= |sub|
    ensures SubsFields(sub + [s], n) == SubsFields(sub, n)
  {
    if n > 0 { SubsFieldsOfPrefix(sub, s, n - 1); }
  }
}
