/**
 * How the head-model data set and the plotting module fit together: every
 * channel of both supported headsets has a known position on the head, so a
 * topographic plot of data labelled by headset channels finds a position for
 * every label.
 */
module Channels {
  import Sbs2
  import Plotting

  lemma EmotivPlaced()
    ensures forall i :: 0 <= i < |Sbs2.EMOTIV| ==> Sbs2.EMOTIV[i] in Plotting.ELECTRODES
  {
  }

  lemma EmocapPlaced()
    ensures forall i :: 0 <= i < |Sbs2.EMOCAP| ==> Sbs2.EMOCAP[i] in Plotting.ELECTRODES
  {
  }

  /**
   * Every channel a supported headset reports is a known electrode, so the
   * topographic position lookup succeeds on data labelled by those channels
   * (`Plotting.KnownLabelsArePlaced`).
   */
  lemma HeadsetChannelsArePlaced(hardware: string)
    requires Sbs2.ElectrodeNames(hardware).Ok?
    ensures var names := Sbs2.ElectrodeNames(hardware).value;
      forall i :: 0 <= i < |names| ==> names[i] in Plotting.ELECTRODES
  {
  }
}
