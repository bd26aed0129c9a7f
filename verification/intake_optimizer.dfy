/**
 * Intake window selection (crates/cybo-intake-scheduler/src/optimizer.rs):
 * when the plant is inside its viability envelope, every pair of consecutive
 * series points is scored with the CEIM kernel for TDS and nitrate, and the
 * first window with the highest combined score is chosen.
 */
module IntakeOptimizer {
  import opened Results
  import opened Ceim
  import Viability

  /** The fields of a series point the optimizer reads (the point type is declared in series.rs, not part of this model). */
  datatype TimeSeriesPoint = TimeSeriesPoint(hour: nat, tds: real, nitrate: real, flowQ: real)

  datatype IntakePlan = IntakePlan(startHour: nat, endHour: nat, kNTds: real, kNNitrate: real)

  /** The kernel input for one concentration over the window from `a` to `b`. */
  function Samples(a: TimeSeriesPoint, b: TimeSeriesPoint, concentration: TimeSeriesPoint -> real): seq<TimeSample> {
    [TimeSample(a.hour as real, concentration(a), 0.0, a.flowQ),
     TimeSample(b.hour as real, concentration(b), 0.0, b.flowQ)]
  }

  /** The plan for the window starting at point `i`. */
  function Window(series: seq<TimeSeriesPoint>, i: nat, compute: Kernel): (p: IntakePlan)
    requires i + 1 < |series|
    ensures p.startHour == series[i].hour && p.endHour == series[i + 1].hour
  {
    var a, b := series[i], series[i + 1];
    IntakePlan(
      a.hour, b.hour,
      compute("TDS", 1.0, Samples(a, b, (q: TimeSeriesPoint) => q.tds)),
      compute("nitrate", 1.0, Samples(a, b, (q: TimeSeriesPoint) => q.nitrate)))
  }

  function Score(p: IntakePlan): real {
    p.kNTds + p.kNNitrate
  }

  /** Window `i` has the highest score and no earlier window reaches it. */
  ghost predicate FirstBest(series: seq<TimeSeriesPoint>, i: nat, compute: Kernel)
    requires i + 1 < |series|
  {
    && (forall j :: 0 <= j < |series| - 1 ==> Score(Window(series, j, compute)) <= Score(Window(series, i, compute)))
    && (forall j :: 0 <= j < i ==> Score(Window(series, j, compute)) < Score(Window(series, i, compute)))
  }

  /**
   * `optimize`. The source wraps the answer in a `Result` that is always `Ok`;
   * the model returns the option itself.
   */
  method Optimize(series: seq<TimeSeriesPoint>, viability: Viability.ViabilityState, compute: Kernel)
    returns (best: Option<IntakePlan>)
    ensures !Viability.IsWithinEnvelope(viability) ==> best.None?
    ensures Viability.IsWithinEnvelope(viability) ==> (best.Some? <==> |series| >= 2)
    ensures best.Some? ==>
      exists i: nat :: i + 1 < |series| && best.value == Window(series, i, compute) && FirstBest(series, i, compute)
  {
    if !Viability.IsWithinEnvelope(viability) {
      return None;
    }
    best := None;
    if |series| < 2 {
      return;
    }
    var i := 0;
    ghost var at := 0;
    while i < |series| - 1
      invariant 0 <= i <= |series| - 1
      invariant best.None? <==> i == 0
      invariant best.Some? ==> at < i && best.value == Window(series, at, compute)
      invariant best.Some? ==> forall j :: 0 <= j < i ==> Score(Window(series, j, compute)) <= Score(best.value)
      invariant best.Some? ==> forall j :: 0 <= j < at ==> Score(Window(series, j, compute)) < Score(best.value)
    {
      var candidate := Window(series, i, compute);
      var better := match best
        case None => true
        case Some(b) => Score(candidate) > Score(b);
      if better {
        best := Some(candidate);
        at := i;
      }
      i := i + 1;
    }
    assert FirstBest(series, at, compute);
  }

  /** At most one window is the first best, so the choice is determined by the series and the kernel. */
  lemma FirstBestUnique(series: seq<TimeSeriesPoint>, i: nat, j: nat, compute: Kernel)
    requires i + 1 < |series| && j + 1 < |series|
    requires FirstBest(series, i, compute) && FirstBest(series, j, compute)
    ensures i == j
  {
    var si, sj := Score(Window(series, i, compute)), Score(Window(series, j, compute));
    assert si <= sj && sj <= si;
    assert i < j ==> sj > si;
    assert j < i ==> si > sj;
  }
}
