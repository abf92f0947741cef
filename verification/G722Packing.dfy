/** Packing of 6 and 7 bit codes into bytes, and back (g722.c, `packed` mode). */
module G722Packing {
  import opened Saturated
  import opened BitStreams

  /** The only widths that are packed; 8-bit codes are sent as bytes. */
  type PackedWidth = w: nat | w == 6 || w == 7 witness 6

  /** A bit buffer: `bits` pending bits held in the low end of `buffer`. */
  datatype Pending = Pending(buffer: nat, bits: nat) {
    predicate Valid() {
      bits <= 7 && Fits(buffer, bits)
    }

    function Stream(): seq<bool> {
      Bits(buffer, bits)
    }
  }

  const EMPTY := Pending(0, 0)

  /** Adding bits above the pending ones.  The operands of the C `|` share no bit,
      because the pending value fits below the shift, so `|` is a sum. */
  function Append(p: Pending, value: nat, width: nat): (n: Pending)
    ensures n.bits == p.bits + width
  {
    ShlGrows(value, p.bits);
    Pending(p.buffer + Shl(value, p.bits), p.bits + width)
  }

  lemma AppendStream(p: Pending, value: nat, width: nat)
    requires Fits(p.buffer, p.bits) && Fits(value, width)
    ensures Append(p, value, width).Stream() == p.Stream() + Bits(value, width)
    ensures Fits(Append(p, value, width).buffer, p.bits + width)
  {
    BitsAppend(p.buffer, p.bits, value, width);
    FitsAppend(p.buffer, p.bits, value, width);
  }

  /** Removing `width` bits from the low end. */
  function Take(p: Pending, width: nat): (r: (nat, Pending))
    requires width == 6 || width == 7 || width == 8
    requires width <= p.bits
  {
    var m := if width == 6 then 64 else if width == 7 then 128 else 256;
    (p.buffer % m, Pending(p.buffer / m, p.bits - width))
  }

  lemma TakeStream(p: Pending, width: nat)
    requires width == 6 || width == 7 || width == 8
    requires width <= p.bits && Fits(p.buffer, p.bits)
    ensures var r := Take(p, width);
            && p.Stream() == Bits(r.0, width) + r.1.Stream()
            && Fits(r.0, width) && Fits(r.1.buffer, r.1.bits)
  {
    var v, q := Take(p, width).0, Take(p, width).1.buffer;
    FitsQuotient(p.buffer, p.bits, width);
    assert Fits(v, width) by { PowersAtHand(); }
    assert p.buffer == v + Shl(q, width) by { ShlOfQuotient(q, width); }
    hide Bits, Fits, Shl;
    BitsAppend(v, width, q, p.bits - width);
  }

  lemma ShlOfQuotient(q: nat, width: nat)
    requires width == 6 || width == 7 || width == 8
    ensures Shl(q, width) == q * (if width == 6 then 64 else if width == 7 then 128 else 256)
  {
    ShlTwice(q, 1);
    ShlTwice(q, 2);
    ShlTwice(q, 3);
    ShlTwice(q, 4);
    ShlTwice(q, 5);
    ShlTwice(q, 6);
    if width > 6 { ShlTwice(q, 7); }
    if width > 7 { ShlTwice(q, 8); }
  }

  lemma FitsQuotient(v: nat, n: nat, width: nat)
    requires width == 6 || width == 7 || width == 8
    requires width <= n && Fits(v, n)
    ensures Fits(v / (if width == 6 then 64 else if width == 7 then 128 else 256), n - width)
  {
    ShlGrows(1, n - width);
    ShlOfQuotient(Shl(1, n - width), width);
    ShlFromOne(n - width, width);
  }

  // ---- packing ----

  datatype Packed = Packed(state: Pending, bytes: seq<uint8>)

  function PackOne(p: Pending, code: nat, w: PackedWidth): (r: Packed)
  {
    var n := Append(p, code, w);
    if n.bits >= 8 then
      var (byte, rest) := Take(n, 8);
      Packed(rest, [byte])
    else Packed(n, [])
  }

  lemma PackOneStream(p: Pending, code: nat, w: PackedWidth)
    requires p.Valid() && Fits(code, w)
    ensures var r := PackOne(p, code, w);
            r.state.Valid() && p.Stream() + Bits(code, w) == StreamOf(r.bytes, 8) + r.state.Stream()
  {
    hide Take, Append, Bits, StreamOf, Fits;
    var n := Append(p, code, w);
    AppendStream(p, code, w);
    if n.bits >= 8 {
      TakeStream(n, 8);
      OneCode(Take(n, 8).0, 8);
      assert Take(n, 8).1.bits == n.bits - 8 by { TakeBits(n, 8); }
    } else {
      EmptyStream(8);
      assert StreamOf([], 8) + n.Stream() == n.Stream();
    }
  }

  lemma TakeBits(p: Pending, width: nat)
    requires width == 6 || width == 7 || width == 8
    requires width <= p.bits
    ensures Take(p, width).1.bits == p.bits - width
  {
  }

  lemma EmptyStream(w: nat)
    ensures EMPTY.Valid() && EMPTY.Stream() == [] && StreamOf([], w) == []
  {
  }

  function PackAll(p: Pending, codes: seq<nat>, w: PackedWidth): (r: Packed)
    decreases |codes|
  {
    if codes == [] then Packed(p, [])
    else
      var one := PackOne(p, codes[0], w);
      var rest := PackAll(one.state, codes[1..], w);
      Packed(rest.state, one.bytes + rest.bytes)
  }

  /** Conservation of bits while packing: what was pending, followed by the codes,
      is what was emitted, followed by what is pending. */
  lemma {:induction false} PackAllStream(p: Pending, codes: seq<nat>, w: PackedWidth)
    requires p.Valid() && AllFit(codes, w)
    ensures var r := PackAll(p, codes, w);
            r.state.Valid() && p.Stream() + StreamOf(codes, w) == StreamOf(r.bytes, 8) + r.state.Stream()
    decreases |codes|
  {
    hide PackOne, Bits, Fits;
    if codes == [] {
      assert p.Stream() + StreamOf(codes, w) == p.Stream() == StreamOf([], 8) + p.Stream();
    } else {
      var one := PackOne(p, codes[0], w);
      var rest := PackAll(one.state, codes[1..], w);
      PackOneStream(p, codes[0], w);
      PackAllStream(one.state, codes[1..], w);
      StreamConcat(one.bytes, rest.bytes, 8);
      Chain(p.Stream(), Bits(codes[0], w), StreamOf(one.bytes, 8), one.state.Stream(),
            StreamOf(codes[1..], w), StreamOf(rest.bytes, 8), rest.state.Stream());
      assert StreamOf(codes, w) == Bits(codes[0], w) + StreamOf(codes[1..], w);
    }
  }

  // ---- unpacking ----

  datatype Unpacked = Unpacked(state: Pending, codes: seq<nat>)

  /** One turn of the decode loop: a byte is fetched only when fewer bits than one
      code are pending; `used` tells whether it was. */
  datatype Turn = Turn(state: Pending, code: nat, used: bool)

  function UnpackOne(u: Pending, next: uint8, w: PackedWidth): (r: Turn)
    ensures r.used <==> u.bits < w
    ensures r.state.bits == u.bits + (if r.used then 8 else 0) - w
  {
    var n := if u.bits < w then Append(u, next, 8) else u;
    var (code, rest) := Take(n, w);
    Turn(rest, code, u.bits < w)
  }

  lemma UnpackOneStream(u: Pending, next: uint8, w: PackedWidth)
    requires u.Valid()
    ensures var r := UnpackOne(u, next, w);
            && r.state.Valid() && Fits(r.code, w)
            && u.Stream() + (if r.used then Bits(next, 8) else []) == Bits(r.code, w) + r.state.Stream()
  {
    hide Take, Append;
    PowersAtHand();
    if u.bits < w {
      AppendStream(u, next, 8);
      TakeStream(Append(u, next, 8), w);
    } else {
      TakeStream(u, w);
    }
  }

  /** The decode loop runs while bytes are left, so codes that are complete when
      the last byte has been fetched wait for the next call. */
  function UnpackAll(u: Pending, data: seq<uint8>, w: PackedWidth): (r: Unpacked)
    decreases |data|, u.bits
  {
    if data == [] then Unpacked(u, [])
    else
      var one := UnpackOne(u, data[0], w);
      var rest := UnpackAll(one.state, if one.used then data[1..] else data, w);
      Unpacked(rest.state, [one.code] + rest.codes)
  }

  /** Conservation of bits while unpacking. */
  lemma {:induction false} UnpackAllStream(u: Pending, data: seq<uint8>, w: PackedWidth)
    requires u.Valid()
    ensures var r := UnpackAll(u, data, w);
            && r.state.Valid() && AllFit(r.codes, w)
            && u.Stream() + StreamOf(data, 8) == StreamOf(r.codes, w) + r.state.Stream()
    decreases |data|, u.bits
  {
    hide UnpackOne, Fits, Bits;
    if data == [] {
      assert u.Stream() + StreamOf(data, 8) == u.Stream() == StreamOf([], w) + u.Stream();
    } else {
      var one := UnpackOne(u, data[0], w);
      var left := if one.used then data[1..] else data;
      var rest := UnpackAll(one.state, left, w);
      UnpackOneStream(u, data[0], w);
      UnpackAllStream(one.state, left, w);
      var codes := [one.code] + rest.codes;
      assert codes[1..] == rest.codes;
      assert StreamOf(codes, w) == Bits(one.code, w) + StreamOf(rest.codes, w);
      var head := if one.used then Bits(data[0], 8) else [];
      assert StreamOf(data, 8) == head + StreamOf(left, 8);
      Chain(u.Stream(), head, Bits(one.code, w), one.state.Stream(),
            StreamOf(left, 8), StreamOf(rest.codes, w), rest.state.Stream());
    }
  }

  lemma UnpackNothing(u: Pending, w: PackedWidth)
    ensures UnpackAll(u, [], w) == Unpacked(u, [])
  {
  }

  lemma UnpackStep(u: Pending, data: seq<uint8>, w: PackedWidth)
    requires data != []
    ensures var one := UnpackOne(u, data[0], w);
            var rest := UnpackAll(one.state, if one.used then data[1..] else data, w);
            UnpackAll(u, data, w) == Unpacked(rest.state, [one.code] + rest.codes)
  {
    hide UnpackOne;
  }

  /** Decoding one block and then another is decoding their concatenation. */
  lemma {:induction false} UnpackConcat(u: Pending, a: seq<uint8>, b: seq<uint8>, w: PackedWidth)
    ensures var first := UnpackAll(u, a, w);
            var second := UnpackAll(first.state, b, w);
            UnpackAll(u, a + b, w) == Unpacked(second.state, first.codes + second.codes)
    decreases |a|, u.bits
  {
    hide UnpackOne, UnpackAll;
    if a == [] {
      assert a + b == b;
      UnpackNothing(u, w);
    } else {
      var one := UnpackOne(u, a[0], w);
      var left := if one.used then a[1..] else a;
      UnpackStep(u, a, w);
      UnpackStep(u, a + b, w);
      assert (a + b)[1..] == a[1..] + b;
      UnpackConcat(one.state, left, b, w);
      Associate([one.code], UnpackAll(one.state, left, w).codes, UnpackAll(UnpackAll(one.state, left, w).state, b, w).codes);
    }
  }

  /** A stream cut into calls of any lengths. */
  function Joined<T>(calls: seq<seq<T>>): seq<T> {
    if calls == [] then [] else calls[0] + Joined(calls[1..])
  }

  function UnpackCalls(u: Pending, calls: seq<seq<uint8>>, w: PackedWidth): (r: Unpacked)
    decreases |calls|
  {
    if calls == [] then Unpacked(u, [])
    else
      var first := UnpackAll(u, calls[0], w);
      var rest := UnpackCalls(first.state, calls[1..], w);
      Unpacked(rest.state, first.codes + rest.codes)
  }

  lemma {:induction false} CallsDoNotMatter(u: Pending, calls: seq<seq<uint8>>, w: PackedWidth)
    ensures UnpackCalls(u, calls, w) == UnpackAll(u, Joined(calls), w)
    decreases |calls|
  {
    if calls != [] {
      var first := UnpackAll(u, calls[0], w);
      CallsDoNotMatter(first.state, calls[1..], w);
      UnpackConcat(u, calls[0], Joined(calls[1..]), w);
    }
  }

  lemma SentStream(codes: seq<nat>, w: PackedWidth)
    requires AllFit(codes, w)
    ensures var sent := PackAll(EMPTY, codes, w);
            && StreamOf(codes, w) == StreamOf(sent.bytes, 8) + sent.state.Stream()
            && sent.state.bits <= 7 && w * |codes| == 8 * |sent.bytes| + sent.state.bits
  {
    hide PackAll, Bits, Fits, StreamOf;
    var sent := PackAll(EMPTY, codes, w);
    EmptyStream(w);
    PackAllStream(EMPTY, codes, w);
    assert StreamOf(codes, w) == [] + StreamOf(codes, w);
    StreamLength(codes, w);
    StreamLength(sent.bytes, 8);
  }

  lemma ReceivedStream(data: seq<uint8>, w: PackedWidth)
    ensures var got := UnpackAll(EMPTY, data, w);
            && StreamOf(data, 8) == StreamOf(got.codes, w) + got.state.Stream() && AllFit(got.codes, w)
            && got.state.bits <= 7 && 8 * |data| == w * |got.codes| + got.state.bits
  {
    hide UnpackAll, Bits, Fits, StreamOf;
    var got := UnpackAll(EMPTY, data, w);
    EmptyStream(w);
    UnpackAllStream(EMPTY, data, w);
    assert StreamOf(data, 8) == [] + StreamOf(data, 8);
    StreamLength(got.codes, w);
    StreamLength(data, 8);
  }

  /** Whatever part of the emitted bytes has arrived, in whatever calls, the decoded
      codes are a prefix of the encoded ones. */
  lemma DecodedIsPrefix(codes: seq<nat>, calls: seq<seq<uint8>>, w: PackedWidth)
    requires AllFit(codes, w)
    requires Joined(calls) <= PackAll(EMPTY, codes, w).bytes
    ensures UnpackCalls(EMPTY, calls, w).codes <= codes
  {
    hide PackAll, UnpackAll, UnpackCalls, Joined, Fits, Bits, StreamOf, AllFit;
    var sent := PackAll(EMPTY, codes, w);
    var data := Joined(calls);
    var got := UnpackAll(EMPTY, data, w);
    CallsDoNotMatter(EMPTY, calls, w);
    SentStream(codes, w);
    ReceivedStream(data, w);
    StreamConcat(data, sent.bytes[|data|..], 8);
    assert sent.bytes == data + sent.bytes[|data|..];
    PrefixOfWhole(StreamOf(sent.bytes, 8), sent.state.Stream(), StreamOf(codes, w));
    PrefixOfWhole(StreamOf(data, 8), StreamOf(sent.bytes[|data|..], 8), StreamOf(codes, w));
    PrefixOfWhole(StreamOf(got.codes, w), got.state.Stream(), StreamOf(codes, w));
    StreamPrefix(got.codes, codes, w);
  }

  /** When every emitted byte has arrived, the codes still missing account exactly
      for the bits pending at the two ends; at most two codes are missing. */
  lemma PendingBitsAreTheLag(codes: seq<nat>, calls: seq<seq<uint8>>, w: PackedWidth)
    requires AllFit(codes, w)
    requires Joined(calls) == PackAll(EMPTY, codes, w).bytes
    ensures var sent := PackAll(EMPTY, codes, w);
            var got := UnpackCalls(EMPTY, calls, w);
            && w * (|codes| - |got.codes|) == sent.state.bits + got.state.bits
            && sent.state.bits <= 7 && got.state.bits <= 7
            && 0 <= |codes| - |got.codes| <= 2
  {
    hide PackAll, UnpackAll, UnpackCalls, Joined, Fits, Bits, StreamOf, AllFit;
    CallsDoNotMatter(EMPTY, calls, w);
    SentStream(codes, w);
    ReceivedStream(Joined(calls), w);
    var lag := |codes| - |UnpackCalls(EMPTY, calls, w).codes|;
    if w == 6 { assert 6 * lag <= 14; } else { assert 7 * lag <= 14; }
  }
}
