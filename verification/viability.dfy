/**
 * The viability envelope of the control kernel
 * (crates/cpvm-kernel/src/viability.rs): an operating state is viable while
 * load and vibration stay at or below 1 and the temperature lies in
 * [0, 60] degrees Celsius. f64 values are modelled as reals.
 */
module Viability {
  datatype ViabilityState = ViabilityState(loadFraction: real, vibrationIndex: real, temperatureC: real)

  const MaxLoadFraction: real := 1.0
  const MaxVibrationIndex: real := 1.0
  const MinTemperatureC: real := 0.0
  const MaxTemperatureC: real := 60.0

  /** `ViabilityKernel::is_within_envelope`. */
  predicate IsWithinEnvelope(s: ViabilityState) {
    && s.loadFraction <= MaxLoadFraction
    && s.vibrationIndex <= MaxVibrationIndex
    && MinTemperatureC <= s.temperatureC <= MaxTemperatureC
  }

  /** Each bound on its own decides: breaking any one of them leaves the envelope. */
  lemma EachBoundMatters(s: ViabilityState)
    ensures s.loadFraction > 1.0 ==> !IsWithinEnvelope(s)
    ensures s.vibrationIndex > 1.0 ==> !IsWithinEnvelope(s)
    ensures s.temperatureC < 0.0 || s.temperatureC > 60.0 ==> !IsWithinEnvelope(s)
    ensures s.loadFraction <= 1.0 && s.vibrationIndex <= 1.0 && 0.0 <= s.temperatureC <= 60.0 ==> IsWithinEnvelope(s)
  {
  }

  /** Load and vibration have no lower bound, and both temperature endpoints belong to the envelope. */
  lemma EnvelopeEdges(load: real, vibration: real)
    requires load <= 1.0 && vibration <= 1.0
    ensures IsWithinEnvelope(ViabilityState(load - 1000.0, vibration - 1000.0, 0.0))
    ensures IsWithinEnvelope(ViabilityState(load, vibration, 0.0))
    ensures IsWithinEnvelope(ViabilityState(load, vibration, 60.0))
  {
  }

  /** A state that is no more loaded or shaken, at the same temperature, stays viable. */
  lemma CalmerStaysViable(s: ViabilityState, t: ViabilityState)
    requires IsWithinEnvelope(s)
    requires t.loadFraction <= s.loadFraction && t.vibrationIndex <= s.vibrationIndex
    requires t.temperatureC == s.temperatureC
    ensures IsWithinEnvelope(t)
  {
  }

  /** The envelope is convex: every state on the segment between two viable states is viable. */
  lemma {:induction false} EnvelopeConvex(a: ViabilityState, b: ViabilityState, w: real)
    requires IsWithinEnvelope(a) && IsWithinEnvelope(b)
    requires 0.0 <= w <= 1.0
    ensures IsWithinEnvelope(Blend(a, b, w))
  {
    BlendBelow(a.loadFraction, b.loadFraction, 1.0, w);
    BlendBelow(a.vibrationIndex, b.vibrationIndex, 1.0, w);
    BlendBelow(a.temperatureC, b.temperatureC, 60.0, w);
    BlendBelow(-a.temperatureC, -b.temperatureC, 0.0, w);
  }

  /** The state `w` of the way from `b` to `a`. */
  function Blend(a: ViabilityState, b: ViabilityState, w: real): (c: ViabilityState)
    requires 0.0 <= w <= 1.0
    ensures a == b ==> c == a
  {
    ViabilityState(
      w * a.loadFraction + (1.0 - w) * b.loadFraction,
      w * a.vibrationIndex + (1.0 - w) * b.vibrationIndex,
      w * a.temperatureC + (1.0 - w) * b.temperatureC)
  }

  lemma BlendBelow(x: real, y: real, bound: real, w: real)
    requires x <= bound && y <= bound && 0.0 <= w <= 1.0
    ensures w * x + (1.0 - w) * y <= bound
  {
    assert w * bound - w * x == w * (bound - x) >= 0.0;
    assert (1.0 - w) * bound - (1.0 - w) * y == (1.0 - w) * (bound - y) >= 0.0;
    assert w * bound + (1.0 - w) * bound == (w + (1.0 - w)) * bound == bound;
  }
}
