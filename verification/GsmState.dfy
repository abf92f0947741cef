/** The state of one GSM 06.10 coder or decoder.  Field shapes follow their use in
    the gsm0610_*.c files; the private header that declares the structure is not
    part of this model. */
module GsmState {
  import opened Saturated

  type Vec8 = s: seq<int16> | |s| == 8 witness [0, 0, 0, 0, 0, 0, 0, 0]

  /** The packings that both ends support without further conditions. */
  datatype Packing = Wav49 | Voip

  class Gsm0610State {
    /** 120 samples of reconstructed residual history, then room for a frame. */
    const dp0: array<int16>
    /** Long-term residual of a sub-frame, with five-sample margins. */
    const e: array<int16>
    /** Offset compensation and pre-emphasis. */
    var z1: int16
    var L_z2: int32
    var mp: int16
    /** Delay lines of the analysis and of the synthesis lattice. */
    const u: array<int16>
    const v: array<int16>
    /** Decoded log-area ratios of two successive frames; `j` selects the row to
        be written next. */
    var LARpp: seq<Vec8>
    var j: nat
    /** Last valid lag, and the de-emphasis memory, of the decoder. */
    var nrp: int16
    var msr: int16
    var packing: Packing

    /** Shapes and separation of the buffers. */
    predicate Shaped()
      reads this
    {
      && dp0.Length == 280 && e.Length == 50 && u.Length == 8 && v.Length == 9
      && dp0 != e && dp0 != u && dp0 != v && e != u && e != v && u != v
      && |LARpp| == 2 && j < 2
    }

    ghost const Repr: set<object> := {this, dp0, e, u, v}

    /** gsm0610_init: everything zero, except the last valid lag. */
    constructor (packing: Packing)
      ensures Shaped() && fresh(Repr) && this.packing == packing
      ensures forall i :: 0 <= i < 280 ==> dp0[i] == 0
      ensures forall i :: 0 <= i < 50 ==> e[i] == 0
      ensures forall i :: 0 <= i < 8 ==> u[i] == 0
      ensures forall i :: 0 <= i < 9 ==> v[i] == 0
      ensures z1 == 0 && L_z2 == 0 && mp == 0 && msr == 0 && nrp == 40
      ensures LARpp == [[0, 0, 0, 0, 0, 0, 0, 0], [0, 0, 0, 0, 0, 0, 0, 0]] && j == 0
    {
      dp0 := new int16[280](_ => 0);
      e := new int16[50](_ => 0);
      u := new int16[8](_ => 0);
      v := new int16[9](_ => 0);
      z1, L_z2, mp, msr, nrp := 0, 0, 0, 0, 40;
      LARpp := [[0, 0, 0, 0, 0, 0, 0, 0], [0, 0, 0, 0, 0, 0, 0, 0]];
      j := 0;
      this.packing := packing;
    }
  }
}
