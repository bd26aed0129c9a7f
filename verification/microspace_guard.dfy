/**
 * The microspace integrity guard
 * (crates/morpheus-client/src/nanoswarm/microspace_guard.rs): three
 * category-keyed ceiling checks on a nanoswarm activity (occupancy density,
 * power draw, occupancy duration), each falling back to a default ceiling for
 * an unknown category, and a composition with fixed precedence.
 *
 * The density check compares a percentage (swarm volume over microspace
 * volume, times 100) with the organism's ceiling; the source documents the
 * ceilings as percentages too, and the model keeps that comparison as written.
 */
module MicrospaceGuard {
  import opened GuardDecisions

  datatype MicrospaceState = MicrospaceState(
    microspaceId: string,
    occupantOrganism: string,
    volumeMm3: real,
    currentSwarmVolumeMm3: real,
    ecosystemRole: string)

  /** The duration is a u64 of seconds in the source; its width is not enforced here. */
  datatype SwarmActivityProposal = SwarmActivityProposal(
    targetMicrospaceId: string,
    proposedEnergyDrawMw: real,
    proposedDurationSecs: nat,
    activityType: string)

  datatype MicrospaceIntegrityGuard = MicrospaceIntegrityGuard(
    densityCeilings: map<string, real>,
    activityPowerLimits: map<string, real>,
    occupancyLimits: map<string, nat>)

  const DefaultDensityCeiling: real := 0.1
  const DefaultPowerLimit: real := 1.0
  const DefaultOccupancyLimit: nat := 3600

  /** Soft thresholds, as fractions of the ceiling. */
  const DensitySoftRatio: real := 0.8
  const PowerSoftRatio: real := 0.7

  /** Opaque reason tags for the decisions this guard produces. */
  const DensityExceeded: string := "density-exceeds-ceiling"
  const DensityApproaching: string := "density-approaching-ceiling"
  const PowerExceeded: string := "power-exceeds-limit"
  const PowerApproaching: string := "power-approaching-limit"
  const OccupancyExceeded: string := "occupancy-exceeds-limit"
  const OccupancyNear: string := "occupancy-near-limit"

  /** `MicrospaceIntegrityGuard::new`: the built-in ceiling tables. */
  function New(): (g: MicrospaceIntegrityGuard)
    ensures g.densityCeilings.Keys == {"soil_rhizosphere", "insect_thorax", "coral_zooxanthella", "neural_tissue"}
    ensures g.occupancyLimits.Keys == g.densityCeilings.Keys
    ensures g.activityPowerLimits.Keys == {"nutrient_cycling", "flight_metabolic", "photosynthesis"}
    ensures forall k :: k in g.densityCeilings ==> 0.0 < g.densityCeilings[k] <= 0.5
    ensures forall k :: k in g.activityPowerLimits ==> 0.0 < g.activityPowerLimits[k] <= 10.0
    ensures forall k :: k in g.occupancyLimits ==> 1800 <= g.occupancyLimits[k] <= 14400
  {
    MicrospaceIntegrityGuard(
      map["soil_rhizosphere" := 0.5, "insect_thorax" := 0.1, "coral_zooxanthella" := 0.05, "neural_tissue" := 0.01],
      map["nutrient_cycling" := 10.0, "flight_metabolic" := 1.0, "photosynthesis" := 0.5],
      map["soil_rhizosphere" := 3600, "insect_thorax" := 1800, "coral_zooxanthella" := 14400, "neural_tissue" := 7200])
  }

  /** A table lookup with a fallback for unknown categories. */
  function CeilingFor<T>(table: map<string, T>, category: string, fallback: T): (r: T)
    ensures category in table ==> r == table[category]
    ensures category !in table ==> r == fallback
  {
    if category in table then table[category] else fallback
  }

  function DensityCeiling(g: MicrospaceIntegrityGuard, organism: string): real {
    CeilingFor(g.densityCeilings, organism, DefaultDensityCeiling)
  }

  function PowerLimit(g: MicrospaceIntegrityGuard, role: string): real {
    CeilingFor(g.activityPowerLimits, role, DefaultPowerLimit)
  }

  function OccupancyLimit(g: MicrospaceIntegrityGuard, organism: string): nat {
    CeilingFor(g.occupancyLimits, organism, DefaultOccupancyLimit)
  }

  /** The swarm's share of the microspace, in percent. */
  function DensityPercent(state: MicrospaceState): real
    requires state.volumeMm3 != 0.0
  {
    (state.currentSwarmVolumeMm3 / state.volumeMm3) * 100.0
  }

  /**
   * The soft occupancy limit `(limit as f64 * 0.8) as u64`: the floor of
   * eight tenths of the limit.
   */
  function DurationSoftLimit(limit: nat): (soft: nat)
    ensures soft * 10 <= limit * 8 < (soft + 1) * 10
    ensures soft <= limit
  {
    limit * 8 / 10
  }

  /** `evaluate_density`. */
  function EvaluateDensity(g: MicrospaceIntegrityGuard, state: MicrospaceState): (d: GuardDecision)
    requires state.volumeMm3 != 0.0
    ensures d.Forbid? <==> DensityPercent(state) > DensityCeiling(g, state.occupantOrganism)
    ensures d.DegradePrecision? <==>
      DensityCeiling(g, state.occupantOrganism) * DensitySoftRatio < DensityPercent(state)
        <= DensityCeiling(g, state.occupantOrganism)
    ensures d.AllowFull? <==>
      DensityPercent(state) <= DensityCeiling(g, state.occupantOrganism) * DensitySoftRatio
        && DensityPercent(state) <= DensityCeiling(g, state.occupantOrganism)
    ensures !d.PauseAndRest?
  {
    var ceiling := DensityCeiling(g, state.occupantOrganism);
    var pct := DensityPercent(state);
    if pct > ceiling then Forbid(DensityExceeded)
    else if pct > ceiling * DensitySoftRatio then DegradePrecision(DensityApproaching)
    else AllowFull
  }

  /** `evaluate_activity`. */
  function EvaluateActivity(g: MicrospaceIntegrityGuard, state: MicrospaceState, proposal: SwarmActivityProposal)
    : (d: GuardDecision)
    ensures d.Forbid? <==> proposal.proposedEnergyDrawMw > PowerLimit(g, state.ecosystemRole)
    ensures d.PauseAndRest? <==>
      PowerLimit(g, state.ecosystemRole) * PowerSoftRatio < proposal.proposedEnergyDrawMw
        <= PowerLimit(g, state.ecosystemRole)
    ensures d.AllowFull? <==>
      proposal.proposedEnergyDrawMw <= PowerLimit(g, state.ecosystemRole) * PowerSoftRatio
        && proposal.proposedEnergyDrawMw <= PowerLimit(g, state.ecosystemRole)
    ensures !d.DegradePrecision?
  {
    var limit := PowerLimit(g, state.ecosystemRole);
    if proposal.proposedEnergyDrawMw > limit then Forbid(PowerExceeded)
    else if proposal.proposedEnergyDrawMw > limit * PowerSoftRatio then PauseAndRest(PowerApproaching)
    else AllowFull
  }

  /** `evaluate_duration`. */
  function EvaluateDuration(g: MicrospaceIntegrityGuard, state: MicrospaceState, proposal: SwarmActivityProposal)
    : (d: GuardDecision)
    ensures d.Forbid? <==> proposal.proposedDurationSecs > OccupancyLimit(g, state.occupantOrganism)
    ensures d.PauseAndRest? <==>
      DurationSoftLimit(OccupancyLimit(g, state.occupantOrganism)) < proposal.proposedDurationSecs
        <= OccupancyLimit(g, state.occupantOrganism)
    ensures d.AllowFull? <==>
      proposal.proposedDurationSecs <= DurationSoftLimit(OccupancyLimit(g, state.occupantOrganism))
    ensures !d.DegradePrecision?
  {
    var limit := OccupancyLimit(g, state.occupantOrganism);
    if proposal.proposedDurationSecs > limit then Forbid(OccupancyExceeded)
    else if proposal.proposedDurationSecs > DurationSoftLimit(limit) then PauseAndRest(OccupancyNear)
    else AllowFull
  }

  /** `evaluate_swarm_proposal`. */
  function EvaluateSwarmProposal(g: MicrospaceIntegrityGuard, state: MicrospaceState, proposal: SwarmActivityProposal)
    : (d: GuardDecision)
    requires state.volumeMm3 != 0.0
    // Forbid iff some check forbids, and then the first in density, activity, duration order
    ensures d.Forbid? <==>
      EvaluateDensity(g, state).Forbid? || EvaluateActivity(g, state, proposal).Forbid?
        || EvaluateDuration(g, state, proposal).Forbid?
    ensures EvaluateDensity(g, state).Forbid? ==> d == EvaluateDensity(g, state)
    ensures !EvaluateDensity(g, state).Forbid? && EvaluateActivity(g, state, proposal).Forbid? ==>
      d == EvaluateActivity(g, state, proposal)
    ensures !EvaluateDensity(g, state).Forbid? && !EvaluateActivity(g, state, proposal).Forbid? ==>
      (EvaluateDuration(g, state, proposal).Forbid? ==> d == EvaluateDuration(g, state, proposal))
    // without a Forbid: density's caution beats activity's, which beats duration's
    ensures !d.Forbid? && EvaluateDensity(g, state).DegradePrecision? ==> d == EvaluateDensity(g, state)
    ensures !d.Forbid? && EvaluateDensity(g, state).AllowFull? && EvaluateActivity(g, state, proposal).PauseAndRest? ==>
      d == EvaluateActivity(g, state, proposal)
    ensures !d.Forbid? && EvaluateDensity(g, state).AllowFull? && EvaluateActivity(g, state, proposal).AllowFull?
      ==> d == EvaluateDuration(g, state, proposal)
    ensures d.AllowFull? <==>
      EvaluateDensity(g, state).AllowFull? && EvaluateActivity(g, state, proposal).AllowFull?
        && EvaluateDuration(g, state, proposal).AllowFull?
    // the composite is never milder than any single check
    ensures Severity(d) >= Severity(EvaluateDensity(g, state))
    ensures Severity(d) >= Severity(EvaluateActivity(g, state, proposal))
    ensures Severity(d) >= Severity(EvaluateDuration(g, state, proposal))
  {
    var density := EvaluateDensity(g, state);
    var activity := EvaluateActivity(g, state, proposal);
    var duration := EvaluateDuration(g, state, proposal);
    if density.Forbid? then density
    else if activity.Forbid? then activity
    else if duration.Forbid? then duration
    else if density.DegradePrecision? then density
    else if activity.PauseAndRest? then activity
    else if duration.PauseAndRest? then duration
    else AllowFull
  }

  /** A denser swarm never gets a milder density decision. */
  lemma DensityMonotone(g: MicrospaceIntegrityGuard, s1: MicrospaceState, s2: MicrospaceState)
    requires s1.volumeMm3 != 0.0 && s2.volumeMm3 != 0.0
    requires s1.occupantOrganism == s2.occupantOrganism
    requires DensityPercent(s1) <= DensityPercent(s2)
    ensures Severity(EvaluateDensity(g, s1)) <= Severity(EvaluateDensity(g, s2))
  {
  }

  /** A larger power draw never gets a milder activity decision. */
  lemma ActivityMonotone(g: MicrospaceIntegrityGuard, state: MicrospaceState,
                         p1: SwarmActivityProposal, p2: SwarmActivityProposal)
    requires p1.proposedEnergyDrawMw <= p2.proposedEnergyDrawMw
    ensures Severity(EvaluateActivity(g, state, p1)) <= Severity(EvaluateActivity(g, state, p2))
  {
  }

  /** A longer stay never gets a milder duration decision. */
  lemma DurationMonotone(g: MicrospaceIntegrityGuard, state: MicrospaceState,
                         p1: SwarmActivityProposal, p2: SwarmActivityProposal)
    requires p1.proposedDurationSecs <= p2.proposedDurationSecs
    ensures Severity(EvaluateDuration(g, state, p1)) <= Severity(EvaluateDuration(g, state, p2))
  {
  }

  /**
   * With the built-in tables: a 5.0 mW draw for the "flight_metabolic" role
   * (limit 1.0 mW) is forbidden, and so is a 10% swarm in soil (ceiling 0.5).
   * A 1% swarm in soil is forbidden too, since 1 > 0.5.
   */
  lemma BuiltInTableExamples()
    ensures EvaluateActivity(New(),
      MicrospaceState("bee_001", "insect_thorax", 50.0, 0.05, "flight_metabolic"),
      SwarmActivityProposal("bee_001", 5.0, 600, "pollination_assist")).Forbid?
    ensures EvaluateDensity(New(),
      MicrospaceState("soil_001", "soil_rhizosphere", 1000.0, 100.0, "nutrient_cycling")).Forbid?
    ensures EvaluateDensity(New(),
      MicrospaceState("soil_001", "soil_rhizosphere", 1000.0, 10.0, "nutrient_cycling")).Forbid?
  {
    var g := New();
    assert DensityCeiling(g, "soil_rhizosphere") == 0.5;
    assert PowerLimit(g, "flight_metabolic") == 1.0;
  }
}
