/**
 * The score band of the eco-impact dashboard
 * (crates/econet-dashboard/src/storage.rs, `band_for_score`): a normalised
 * score is shown as one of three band levels.
 */
module ScoreBand {
  const LowBand: real := 0.1
  const MidBand: real := 0.5
  const HighBand: real := 0.9

  const MidThreshold: real := 0.3
  const HighThreshold: real := 0.7

  /** `band_for_score`. */
  function BandForScore(score: real): (band: real)
    ensures band in {LowBand, MidBand, HighBand}
    ensures band == LowBand <==> score < MidThreshold
    ensures band == MidBand <==> MidThreshold <= score < HighThreshold
    ensures band == HighBand <==> HighThreshold <= score
  {
    if score < MidThreshold then LowBand
    else if score < HighThreshold then MidBand
    else HighBand
  }

  /** A higher score never gets a lower band. */
  lemma BandMonotone(x: real, y: real)
    requires x <= y
    ensures BandForScore(x) <= BandForScore(y)
  {
  }

  /** The thresholds belong to the upper band. */
  lemma BoundariesGoUp()
    ensures BandForScore(0.3) == MidBand
    ensures BandForScore(0.7) == HighBand
    ensures BandForScore(0.29) == LowBand
    ensures BandForScore(0.69) == MidBand
  {
  }
}
