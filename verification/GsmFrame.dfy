/** A GSM 06.10 frame: 76 parameters, with the field widths of both packings. */
module GsmFrame {
  import opened Saturated
  import opened LogAreaRatio
  import opened Apcm
  import opened Rpe

  /** The parameters of one of the four sub-frames. */
  datatype SubFrame = SubFrame(Nc: int16, bc: int16, Mc: int16, xmaxc: int16, xMc: seq<int16>) {
    predicate InRange() {
      && 0 <= Nc <= 127 && 0 <= bc <= 3 && 0 <= Mc <= 3 && 0 <= xmaxc <= 63
      && |xMc| == 13 && forall i :: 0 <= i < 13 ==> 0 <= xMc[i] <= 7
    }

    /** The part that the RPE decoder reads. */
    function Rpe(): (c: Coded)
      requires InRange()
      ensures c.InRange()
    {
      Coded(Mc, Block(xmaxc, xMc))
    }
  }

  datatype Frame = Frame(LARc: seq<int16>, sub: seq<SubFrame>) {
    /** All 76 parameters are there. */
    predicate Complete() {
      |LARc| == 8 && |sub| == 4 && forall k :: 0 <= k < 4 ==> |sub[k].xMc| == 13
    }

    predicate InRange() {
      && LarcInRange(LARc)
      && |sub| == 4 && forall k :: 0 <= k < 4 ==> sub[k].InRange()
    }
  }

  lemma CompleteFrame(f: Frame)
    requires f.InRange()
    ensures f.Complete()
  {
  }
}
