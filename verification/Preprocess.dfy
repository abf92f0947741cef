/** Downscaling, offset compensation and pre-emphasis (gsm0610_preprocess.c,
    sections 4.2.1 to 4.2.3 of GSM 06.10; the 64-bit branch). */
module Preprocess {
  import opened Saturated
  import opened GsmState

  /** The part of the coder state that survives from sample to sample. */
  datatype Memory = Memory(z1: int16, L_z2: int32, mp: int16)

  const RESET := Memory(0, 0, 0)

  /** `(amp >> 1) & ~3`. */
  function Downscaled(amp: int16): (so: int16)
    ensures -0x4000 <= so <= 0x3FFC && so % 4 == 0
  {
    amp / 8 * 4
  }

  /** The recursive part `(L_z2*32735 + 0x4000) >> 15`, as a 64-bit value. */
  function Decayed(L_z2: int): int {
    (L_z2 * 32735 + 0x4000) / 0x8000
  }

  function Difference(m: Memory, amp: int16): int16 {
    Wrap16(Downscaled(amp) - m.z1)
  }

  function NextL(m: Memory, amp: int16): int32 {
    Add32(Wrap32(Decayed(m.L_z2)), Wrap32(Difference(m, amp) * 0x8000))
  }

  /** Memory after one sample. */
  function Next(m: Memory, amp: int16): Memory {
    Memory(Downscaled(amp), NextL(m, amp), Wrap16(Add32(NextL(m, amp), 16384) / 0x8000))
  }

  /** The sample handed to the LPC analysis. */
  function Output(m: Memory, amp: int16): int16 {
    Add16(Next(m, amp).mp, MultR(m.mp, -28180))
  }

  /** The accumulator, seen from the last downscaled sample. */
  function Offset(m: Memory): int {
    m.L_z2 - m.z1 * 0x8000
  }

  /** Reachable memories: the accumulator stays within a fixed distance of the last
      downscaled sample.  496 is where the decay stops: 2^14/33, rounded down. */
  predicate Tracking(m: Memory) {
    && -0x4000 <= m.z1 <= 0x3FFC
    && -(16380 * 0x8000) + 496 <= Offset(m) <= 16384 * 0x8000 - 496
  }

  lemma ResetTracks()
    ensures Tracking(RESET)
  {
  }

  /** The recursive part moves towards zero, as far as 496, and never past it. */
  lemma DecayStops(L: int)
    ensures L > 496 ==> 496 <= Decayed(L) < L
    ensures L < -496 ==> L < Decayed(L) <= -496
    ensures -496 <= L <= 496 ==> Decayed(L) == L
  {
  }

  /** The recursive part seen from the moving reference `z1 * 2^15`. */
  lemma DecayTowardsReference(L: int, z1: int)
    requires -0x4000 <= z1 <= 0x3FFC
    requires -(16380 * 0x8000) + 496 <= L - z1 * 0x8000 <= 16384 * 0x8000 - 496
    ensures -(16380 * 0x8000) + 496 <= Decayed(L) - z1 * 0x8000 <= 16384 * 0x8000 - 496
  {
    hide Decayed;
    DecayStops(L);
  }

  lemma WrapFits(x: int)
    ensures -0x8000_0000 <= x <= 0x7FFF_FFFF ==> Wrap32(x) == x
    ensures -0x8000 <= x <= 0x7FFF ==> Wrap16(x) == x
  {
  }

  /** Neither 32-bit addition clips and no cast drops a bit: the filter computes its
      exact difference equation. */
  lemma NothingSaturates(m: Memory, amp: int16)
    requires Tracking(m)
    ensures Difference(m, amp) == Downscaled(amp) - m.z1 && Difference(m, amp) != -0x8000
    ensures NextL(m, amp) == Decayed(m.L_z2) + (Downscaled(amp) - m.z1) * 0x8000
    ensures Add32(NextL(m, amp), 16384) == NextL(m, amp) + 16384
    ensures Next(m, amp).mp == (NextL(m, amp) + 16384) / 0x8000
    ensures Tracking(Next(m, amp))
  {
    hide Decayed, Wrap16, Wrap32, Add32, Downscaled;
    DecayTowardsReference(m.L_z2, m.z1);
    WrapFits(Downscaled(amp) - m.z1);
    WrapFits(Decayed(m.L_z2));
    WrapFits((Downscaled(amp) - m.z1) * 0x8000);
    WrapFits((NextL(m, amp) + 16384) / 0x8000);
  }

  datatype Stretch = Stretch(memory: Memory, out: seq<int16>)

  function Run(m: Memory, xs: seq<int16>): (r: Stretch)
    ensures |r.out| == |xs|
  {
    if xs == [] then Stretch(m, [])
    else
      var before := Run(m, xs[..|xs| - 1]);
      var x := xs[|xs| - 1];
      Stretch(Next(before.memory, x), before.out + [Output(before.memory, x)])
  }

  lemma RunOneMore(m: Memory, xs: seq<int16>, x: int16)
    ensures Run(m, xs + [x]).memory == Next(Run(m, xs).memory, x)
    ensures Run(m, xs + [x]).out == Run(m, xs).out + [Output(Run(m, xs).memory, x)]
  {
    hide Next, Output;
    assert (xs + [x])[..|xs|] == xs;
  }

  /** The bound holds after every input stream. */
  lemma {:induction false} RunTracks(m: Memory, xs: seq<int16>)
    requires Tracking(m)
    ensures Tracking(Run(m, xs).memory)
  {
    hide Next, Output, Tracking;
    if xs != [] {
      RunTracks(m, xs[..|xs| - 1]);
      NothingSaturates(Run(m, xs[..|xs| - 1]).memory, xs[|xs| - 1]);
    }
  }

  // ---- pre-emphasis ----

  /** Memories that runs reach: `mp` is the rounded accumulator. */
  predicate Reached(m: Memory) {
    Tracking(m) && m.mp == (m.L_z2 + 16384) / 0x8000
  }

  /** The pre-emphasis sum, with every quantity given by the floor that defines it: `z` and
      `z2` are successive downscaled samples, `L` and `dec` the accumulator and what is
      left of it, `s` and `x` successive values of `mp`, and `p` the rounded product. */
  lemma EmphasisArithmetic(z: int, z2: int, L: int, dec: int, s: int, x: int, p: int)
    requires -0x4000 <= z <= 0x3FFC && -0x4000 <= z2 <= 0x3FFC
    requires -(16380 * 0x8000) + 496 <= L - z * 0x8000 <= 16384 * 0x8000 - 496
    requires 0x8000 * dec <= L * 32735 + 0x4000 < 0x8000 * dec + 0x8000
    requires 0x8000 * s <= L + 16384 < 0x8000 * s + 0x8000
    requires 0x8000 * x <= dec + (z2 - z) * 0x8000 + 16384 < 0x8000 * x + 0x8000
    requires 0x8000 * p <= s * -28180 + 0x4000 < 0x8000 * p + 0x8000
    ensures -0x8000 <= x + p <= 0x7FFF
  {
  }

  /** The third saturating addition of the loop does not clip either. */
  lemma PreEmphasisFits(m: Memory, amp: int16)
    requires Reached(m)
    ensures Reached(Next(m, amp))
    ensures Output(m, amp) == Next(m, amp).mp + MultR(m.mp, -28180)
  {
    NothingSaturates(m, amp);
    var z2, dec := Downscaled(amp), Decayed(m.L_z2);
    assert 0x8000 * dec <= m.L_z2 * 32735 + 0x4000 < 0x8000 * dec + 0x8000;
    hide Decayed, Downscaled, Difference, NextL, Add32;
    EmphasisProduct(m.mp);
    var p := MultR(m.mp, -28180);
    hide MultR;
    EmphasisArithmetic(m.z1, z2, m.L_z2, dec, m.mp, Next(m, amp).mp, p);
  }

  lemma EmphasisProduct(s: int16)
    ensures var p := MultR(s, -28180);
            0x8000 * p <= s * -28180 + 0x4000 < 0x8000 * p + 0x8000
  {
    ProductIsTimes(s, -28180);
    ProductIsTimes(-28180, s);
  }

  lemma {:induction false} RunReaches(m: Memory, xs: seq<int16>)
    requires Reached(m)
    ensures Reached(Run(m, xs).memory)
  {
    hide Next, Output, Reached;
    if xs != [] {
      RunReaches(m, xs[..|xs| - 1]);
      PreEmphasisFits(Run(m, xs[..|xs| - 1]).memory, xs[|xs| - 1]);
    }
  }

  lemma ResetIsReached()
    ensures Reached(RESET)
  {
    hide Tracking;
    ResetTracks();
    assert (0 + 16384) / 0x8000 == 0;
  }

  /** From reset on, whatever the input, none of the three saturating additions clips and
      no cast loses a bit. */
  lemma NeverSaturates(xs: seq<int16>, amp: int16)
    ensures var m := Run(RESET, xs).memory;
            && Difference(m, amp) == Downscaled(amp) - m.z1
            && NextL(m, amp) == Decayed(m.L_z2) + (Downscaled(amp) - m.z1) * 0x8000
            && Add32(NextL(m, amp), 16384) == NextL(m, amp) + 16384
            && Next(m, amp).mp == (NextL(m, amp) + 16384) / 0x8000
            && Output(m, amp) == Next(m, amp).mp + MultR(m.mp, -28180)
  {
    hide *;
    ResetTracks();
    RunTracks(RESET, xs);
    NothingSaturates(Run(RESET, xs).memory, amp);
    ResetIsReached();
    RunReaches(RESET, xs);
    PreEmphasisFits(Run(RESET, xs).memory, amp);
  }

  // ---- the bound is attained ----

  /** A constant loudest input lets the accumulator decay as far as it goes. */
  lemma Repeated(m: Memory, amp: int16)
    requires Tracking(m) && m.z1 == Downscaled(amp)
    ensures Next(m, amp).z1 == m.z1 && Next(m, amp).L_z2 == Decayed(m.L_z2)
    ensures Next(m, amp).mp == (Decayed(m.L_z2) + 16384) / 0x8000
    ensures Tracking(Next(m, amp))
  {
    hide Decayed, Downscaled, Tracking, Difference;
    NothingSaturates(m, amp);
  }

  lemma Extremes()
    ensures Downscaled(32767) == 0x3FFC && Downscaled(-32768) == -0x4000 && Decayed(0) == 0
  {
  }

  lemma FirstLoud(amp: int16)
    requires amp == 32767 || amp == -32768
    ensures Downscaled(32767) == 0x3FFC && Downscaled(-32768) == -0x4000
    ensures var m := Run(RESET, [amp]).memory;
            Tracking(m) && m.z1 == Downscaled(amp) && m.L_z2 == Downscaled(amp) * 0x8000
  {
    hide Decayed, Downscaled, Difference, NextL, Add32, Wrap16, Wrap32, Output, Tracking;
    Extremes();
    ResetTracks();
    NothingSaturates(RESET, amp);
    assert [amp][..0] == [];
    assert Run(RESET, [amp]).memory == Next(RESET, amp);
  }

  /** Some run from reset ends at the lower end of the bound. */
  lemma LowerEndIsAttained() returns (xs: seq<int16>)
    ensures Offset(Run(RESET, xs).memory) == -(16380 * 0x8000) + 496
  {
    hide Next, Run, Decayed, Downscaled;
    xs := [32767];
    FirstLoud(32767);
    while Run(RESET, xs).memory.L_z2 > 496
      invariant Tracking(Run(RESET, xs).memory) && Run(RESET, xs).memory.z1 == 0x3FFC == Downscaled(32767)
      invariant Run(RESET, xs).memory.L_z2 >= 496
      decreases Run(RESET, xs).memory.L_z2
    {
      Repeated(Run(RESET, xs).memory, 32767);
      DecayStops(Run(RESET, xs).memory.L_z2);
      RunOneMore(RESET, xs, 32767);
      xs := xs + [32767];
    }
  }

  /** And some run at the upper end. */
  lemma UpperEndIsAttained() returns (xs: seq<int16>)
    ensures Offset(Run(RESET, xs).memory) == 16384 * 0x8000 - 496
  {
    hide Next, Run, Decayed, Downscaled;
    xs := [-32768];
    FirstLoud(-32768);
    while Run(RESET, xs).memory.L_z2 < -496
      invariant Tracking(Run(RESET, xs).memory) && Run(RESET, xs).memory.z1 == -0x4000 == Downscaled(-32768)
      invariant Run(RESET, xs).memory.L_z2 <= -496
      decreases -Run(RESET, xs).memory.L_z2
    {
      Repeated(Run(RESET, xs).memory, -32768);
      DecayStops(Run(RESET, xs).memory.L_z2);
      RunOneMore(RESET, xs, -32768);
      xs := xs + [-32768];
    }
  }

  /** Neither end of the bound can be drawn in: runs from reset get there. */
  lemma BoundIsAttained()
    ensures exists xs :: Offset(Run(RESET, xs).memory) == -(16380 * 0x8000) + 496
    ensures exists xs :: Offset(Run(RESET, xs).memory) == 16384 * 0x8000 - 496
  {
    hide Run;
    var low := LowerEndIsAttained();
    var high := UpperEndIsAttained();
    assert Offset(Run(RESET, low).memory) == -(16380 * 0x8000) + 496;
    assert Offset(Run(RESET, high).memory) == 16384 * 0x8000 - 496;
  }

  // ---- a loud sample after silence at the lower end ----

  /** A run of whole frames after which the accumulator no longer shows in the output. */
  lemma SettlesAtTheLowerEnd() returns (xs: seq<int16>)
    ensures |xs| % 160 == 0
    ensures Tracking(Run(RESET, xs).memory) && Settled(Run(RESET, xs).memory)
  {
    hide Next, Run, Decayed, Downscaled;
    xs := [-32768];
    FirstLoud(-32768);
    while Run(RESET, xs).memory.L_z2 < -16384
      invariant Tracking(Run(RESET, xs).memory) && Run(RESET, xs).memory.z1 == -0x4000 == Downscaled(-32768)
      invariant Run(RESET, xs).memory.L_z2 <= -496
      decreases -Run(RESET, xs).memory.L_z2
    {
      Repeated(Run(RESET, xs).memory, -32768);
      DecayStops(Run(RESET, xs).memory.L_z2);
      RunOneMore(RESET, xs, -32768);
      xs := xs + [-32768];
    }
    xs := FillFrame(xs);
  }

  lemma FillFrame(xs0: seq<int16>) returns (xs: seq<int16>)
    requires Tracking(Run(RESET, xs0).memory) && Settled(Run(RESET, xs0).memory)
    ensures |xs| % 160 == 0
    ensures Tracking(Run(RESET, xs).memory) && Settled(Run(RESET, xs).memory)
  {
    hide Run, Settled, Tracking;
    xs := xs0;
    ghost var missing := (160 - |xs| % 160) % 160;
    while missing > 0
      invariant missing >= 0 && (|xs| + missing) % 160 == 0
      invariant Tracking(Run(RESET, xs).memory) && Settled(Run(RESET, xs).memory)
      decreases missing
    {
      QuietSample(xs);
      xs := xs + [-32768];
      missing := missing - 1;
    }
  }

  lemma QuietSample(xs: seq<int16>)
    requires Tracking(Run(RESET, xs).memory) && Settled(Run(RESET, xs).memory)
    ensures var m := Run(RESET, xs + [-32768]).memory;
            Tracking(m) && Settled(m)
  {
    hide Next, Run, Decayed, Downscaled, Tracking;
    Extremes();
    Repeated(Run(RESET, xs).memory, -32768);
    DecayStops(Run(RESET, xs).memory.L_z2);
    RunOneMore(RESET, xs, -32768);
  }

  predicate Settled(m: Memory) {
    m.z1 == -0x4000 && -16384 <= m.L_z2 <= -496
  }

  /** The frame that follows: silence at the lower end, then the loudest sample. */
  function JumpFrame(n: nat): (xs: seq<int16>)
    ensures |xs| == n + 1
  {
    seq(n, _ => -32768) + [32767]
  }

  /** Its last sample reaches the LPC analysis as 32764. */
  lemma JumpIsLoud(m: Memory, n: nat)
    requires Tracking(m) && Settled(m) && n > 0
    ensures Run(m, JumpFrame(n)).out[n] == 32764
  {
    var quiet := seq(n, _ => -32768);
    StaysSettled(m, quiet);
    var before := Run(m, quiet).memory;
    RunOneMore(m, quiet, 32767);
    hide Run, Settled, Tracking;
    LoudOutput(before);
  }

  lemma LoudOutput(m: Memory)
    requires Tracking(m) && Settled(m) && m.mp == 0
    ensures Output(m, 32767) == 32764
  {
    hide MultR, Decayed, Downscaled, Difference, NextL, Add32, Wrap16, Wrap32, Tracking;
    SilentProduct();
    Extremes();
    NothingSaturates(m, 32767);
    DecayStops(m.L_z2);
    JumpArithmetic(Decayed(m.L_z2));
    assert Next(m, 32767).mp == 32764;
    hide Next;
  }

  lemma SilentProduct()
    ensures MultR(0, -28180) == 0
  {
    ProductIsTimes(0, -28180);
  }

  lemma JumpArithmetic(dec: int)
    requires -16384 <= dec <= -496
    ensures (dec + (0x3FFC + 0x4000) * 0x8000 + 16384) / 0x8000 == 32764
  {
  }

  lemma {:induction false} StaysSettled(m: Memory, xs: seq<int16>)
    requires Tracking(m) && Settled(m) && forall i :: 0 <= i < |xs| ==> xs[i] == -32768
    ensures Tracking(Run(m, xs).memory) && Settled(Run(m, xs).memory)
    ensures xs != [] ==> Run(m, xs).memory.mp == 0
  {
    hide Next, Output, Decayed, Downscaled;
    if xs != [] {
      StaysSettled(m, xs[..|xs| - 1]);
      var before := Run(m, xs[..|xs| - 1]).memory;
      FirstLoud(-32768);
      Repeated(before, -32768);
      DecayStops(before.L_z2);
    }
  }

  ghost function MemoryOf(s: Gsm0610State): Memory
    reads s
  {
    Memory(s.z1, s.L_z2, s.mp)
  }

  /** gsm0610_preprocess. */
  method GsmPreprocess(s: Gsm0610State, amp: seq<int16>, so: array<int16>)
    requires |amp| == 160 == so.Length
    modifies s`z1, s`L_z2, s`mp, so
    ensures Stretch(MemoryOf(s), so[..]) == Run(old(MemoryOf(s)), amp)
  {
    hide Add16, Add32, MultR, Wrap16, Wrap32, Decayed, Downscaled;
    var z1 := s.z1;
    var L_z2 := s.L_z2;
    var mp := s.mp;
    ghost var m0 := MemoryOf(s);
    for k := 0 to 160
      invariant Stretch(Memory(z1, L_z2, mp), so[..k]) == Run(m0, amp[..k])
    {
      assert amp[..k + 1][..k] == amp[..k];
      var SO := Downscaled(amp[k]);
      var s1 := Wrap16(SO as int - z1 as int);
      z1 := SO;
      var L_s2 := Wrap32(s1 as int * 0x8000);
      L_z2 := Wrap32(Decayed(L_z2));
      L_z2 := Add32(L_z2, L_s2);
      var L_temp := Add32(L_z2, 16384);
      var msp := MultR(mp, -28180);
      mp := Wrap16(L_temp / 0x8000);
      so[k] := Add16(mp, msp);
    }
    assert amp[..160] == amp && so[..160] == so[..];
    s.z1 := z1;
    s.L_z2 := L_z2;
    s.mp := mp;
  }
}
