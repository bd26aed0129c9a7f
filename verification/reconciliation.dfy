/**
 * The reconciliation engine (crates/morpheus-client/src/core/reconciliation.rs):
 * an evolution proposal passes a fixed sequence of checks, the first failure
 * wins, and a proposal that passes them all yields an audit record that must
 * pass its own monotonicity self-check.
 *
 * The BCI ceiling guard, the RoH guard, the envelope guard, the corridor
 * validator and the audit record's self-check are defined in files that are
 * not part of this model; they are the function-typed fields of
 * `Collaborators`, and only their constructor arguments are fixed here.
 */
module Reconciliation {
  import opened Results
  import opened GuardDecisions
  import Evidence
  import Policy
  import Text

  /** The corridor context travels with the proposal; its validator is a collaborator. */
  datatype CorridorContext = CorridorContext(id: string, name: string, jurisdictions: seq<string>)

  /** Session lengths are u32 minutes in the source; their width is not enforced here. */
  datatype EvolutionProposal = EvolutionProposal(
    did: string,
    corridorContext: CorridorContext,
    evidenceBundle: Evidence.EvidenceBundle,
    neuromorphicDecision: string,
    currentBci: real,
    proposedBci: real,
    currentRoh: real,
    proposedRoh: real,
    currentDutyCycle: real,
    proposedDutyCycle: real,
    currentSessionLength: nat,
    proposedSessionLength: nat)

  /** Constructor arguments of the three guards. */
  datatype BciCeilingGuard = BciCeilingGuard(ceiling: real, warnThreshold: real)
  datatype RohGuard = RohGuard(ceiling: real, current: real)
  datatype EnvelopeGuard = EnvelopeGuard(currentDutyCycle: real, currentSessionLength: nat)

  datatype EvolutionOutcome = Allowed | Rejected

  /** The audit record after `EvolutionAuditRecord::new` followed by `set_outcome`. */
  datatype EvolutionAuditRecord = EvolutionAuditRecord(
    did: string,
    corridorContext: CorridorContext,
    evidenceBundle: Evidence.EvidenceBundle,
    policyProfileName: string,
    neuromorphicDecision: string,
    outcome: EvolutionOutcome,
    bciBefore: real,
    bciAfter: Option<real>,
    rohBefore: real,
    rohAfter: Option<real>)

  /** The behaviour the engine consumes but does not define. */
  datatype Collaborators = Collaborators(
    validateCorridor: CorridorContext -> Result<(), string>,
    evaluateBci: (BciCeilingGuard, real) -> GuardDecision,
    evaluateRoh: (RohGuard, real) -> GuardDecision,
    evaluateEnvelope: (EnvelopeGuard, real, nat) -> GuardDecision,
    respectsMonotonicity: EvolutionAuditRecord -> bool)

  datatype RejectingGuard = BciCeiling | Envelope

  datatype PolicyFault = InvalidProfile(error: Policy.ProfileError) | ConstraintViolated(name: string)

  datatype MonotonicityCause = RohGuardRejected(decision: GuardDecision) | AuditRecordViolation

  /** The error kinds of `MorpheusError` the engine produces; message strings become structured payloads. */
  datatype MorpheusError =
    | PolicyError(fault: PolicyFault)
    | CorridorViolation(message: string)
    | EvidenceInvalid(evidenceError: Evidence.EvidenceError)
    | GuardRejection(guard: RejectingGuard, decision: GuardDecision)
    | MonotonicityViolation(cause: MonotonicityCause)

  /** The hard constitutional ceiling on the risk-of-harm index. */
  const RohCeiling: real := 0.3

  /** The BCI guard warns from this fraction of the ceiling on. */
  const WarnRatio: real := 0.85

  /** The substring that marks a neurorights constraint as prohibitive. */
  const ForbiddenMarker: string := "Forbidden"

  datatype Engine = Engine(
    policyProfile: Policy.PolicyProfile,
    bciGuard: BciCeilingGuard,
    rohCeiling: real,
    envelopeGuardEnabled: bool)

  function Max(a: real, b: real): (r: real)
    ensures r >= a && r >= b && (r == a || r == b)
  {
    if a >= b then a else b
  }

  /** What every engine the source can build satisfies: a valid profile and guards derived from it. */
  predicate Consistent(e: Engine) {
    && Policy.Validate(e.policyProfile).Ok?
    && e.bciGuard.ceiling == e.policyProfile.biomechPolicy.bciCeiling
    && e.bciGuard.warnThreshold == e.bciGuard.ceiling * WarnRatio
    && e.rohCeiling == RohCeiling
    && e.envelopeGuardEnabled
  }

  /** `ReconciliationEngine::new`. */
  function NewEngine(profile: Policy.PolicyProfile): (r: Result<Engine, MorpheusError>)
    ensures r.Err? <==> !Policy.WellFormed(profile)
    ensures r.Err? ==> r.error == PolicyError(InvalidProfile(Policy.Validate(profile).error))
    ensures r.Ok? ==> r.value.policyProfile == profile && Consistent(r.value)
    ensures r.Ok? ==> 0.0 <= r.value.bciGuard.warnThreshold <= r.value.bciGuard.ceiling <= 1.0
  {
    match Policy.Validate(profile)
    case Err(e) => Err(PolicyError(InvalidProfile(e)))
    case Ok(_) =>
      var ceiling := profile.biomechPolicy.bciCeiling;
      Ok(Engine(profile, BciCeilingGuard(ceiling, Max(ceiling * WarnRatio, 0.0)), RohCeiling, true))
  }

  /**
   * `set_policy_profile`, as a pure transition: the engine afterwards, and the
   * call's result. The atomic snapshot swap of the source is not modelled.
   */
  function SetPolicyProfile(e: Engine, profile: Policy.PolicyProfile): (r: (Engine, Result<(), MorpheusError>))
    ensures r.1.Err? <==> !Policy.WellFormed(profile)
    ensures r.1.Err? ==> r.0 == e && r.1.error == PolicyError(InvalidProfile(Policy.Validate(profile).error))
    ensures r.1.Ok? ==> r.0.policyProfile == profile
    ensures r.1.Ok? ==> r.0.bciGuard.ceiling == profile.biomechPolicy.bciCeiling
    ensures r.1.Ok? ==> r.0.bciGuard.warnThreshold == profile.biomechPolicy.bciCeiling * WarnRatio
    ensures r.0.rohCeiling == e.rohCeiling && r.0.envelopeGuardEnabled == e.envelopeGuardEnabled
    ensures Consistent(e) ==> Consistent(r.0)
  {
    match Policy.Validate(profile)
    case Err(err) => (e, Err(PolicyError(InvalidProfile(err))))
    case Ok(_) =>
      var ceiling := profile.biomechPolicy.bciCeiling;
      (e.(policyProfile := profile, bciGuard := BciCeilingGuard(ceiling, ceiling * WarnRatio)), Ok(()))
  }

  /** Replacing the profile of a consistent engine gives the engine `new` would build from that profile. */
  lemma SetPolicyProfileMatchesNew(e: Engine, profile: Policy.PolicyProfile)
    requires Consistent(e)
    requires Policy.WellFormed(profile)
    ensures SetPolicyProfile(e, profile).0 == NewEngine(profile).value
  {
    var c := profile.biomechPolicy.bciCeiling;
    assert Max(c * WarnRatio, 0.0) == c * WarnRatio;
  }

  ghost predicate Prohibitive(c: Policy.NeurorightsConstraint) {
    c.enforced && Text.Contains(c.name, ForbiddenMarker)
  }

  /** `cs[i]` is the first prohibitive constraint. */
  ghost predicate FirstProhibitiveAt(cs: seq<Policy.NeurorightsConstraint>, i: int) {
    0 <= i < |cs| && Prohibitive(cs[i]) && forall j :: 0 <= j < i ==> !Prohibitive(cs[j])
  }

  /** The name of the first enforced constraint whose name contains "Forbidden", if any. */
  function FirstProhibitive(cs: seq<Policy.NeurorightsConstraint>): (r: Option<string>)
    ensures r.None? <==> forall i :: 0 <= i < |cs| ==> !Prohibitive(cs[i])
    ensures r.Some? ==> exists i :: FirstProhibitiveAt(cs, i) && cs[i].name == r.value
    decreases |cs|
  {
    if |cs| == 0 then None
    else if cs[0].enforced && Text.Contains(cs[0].name, ForbiddenMarker) then Some(cs[0].name)
    else
      var r := FirstProhibitive(cs[1..]);
      assert r.Some? ==> exists i :: FirstProhibitiveAt(cs, i) && cs[i].name == r.value by {
        if r.Some? {
          var i :| FirstProhibitiveAt(cs[1..], i) && cs[1..][i].name == r.value;
          forall j | 0 <= j < i + 1
            ensures !Prohibitive(cs[j])
          {
            if j > 0 {
              assert cs[j] == cs[1..][j - 1];
            }
          }
          assert FirstProhibitiveAt(cs, i + 1);
        }
      }
      r
  }

  function BciDecision(e: Engine, env: Collaborators, p: EvolutionProposal): GuardDecision {
    env.evaluateBci(e.bciGuard, p.proposedBci)
  }

  function RohDecision(e: Engine, env: Collaborators, p: EvolutionProposal): GuardDecision {
    env.evaluateRoh(RohGuard(e.rohCeiling, p.currentRoh), p.proposedRoh)
  }

  function EnvelopeDecision(env: Collaborators, p: EvolutionProposal): GuardDecision {
    env.evaluateEnvelope(
      EnvelopeGuard(p.currentDutyCycle, p.currentSessionLength),
      p.proposedDutyCycle, p.proposedSessionLength)
  }

  /**
   * The record built in step 7: the proposal's identity, corridor, evidence and
   * decision, the profile name, outcome Allowed, and the BCI and RoH values.
   */
  function AuditRecordFor(e: Engine, p: EvolutionProposal): (record: EvolutionAuditRecord)
    ensures record.did == p.did && record.policyProfileName == e.policyProfile.name
    ensures record.corridorContext == p.corridorContext && record.evidenceBundle == p.evidenceBundle
    ensures record.neuromorphicDecision == p.neuromorphicDecision
    ensures record.outcome == Allowed
    ensures record.bciBefore == p.currentBci && record.bciAfter == Some(p.proposedBci)
    ensures record.rohBefore == p.currentRoh && record.rohAfter == Some(p.proposedRoh)
  {
    EvolutionAuditRecord(
      p.did, p.corridorContext, p.evidenceBundle, e.policyProfile.name, p.neuromorphicDecision,
      Allowed, p.currentBci, Some(p.proposedBci), p.currentRoh, Some(p.proposedRoh))
  }

  /** Steps 1 to 6: the first failing check before the audit record is built, if any. */
  function Gate(e: Engine, env: Collaborators, p: EvolutionProposal): Option<MorpheusError> {
    match env.validateCorridor(p.corridorContext)
    case Err(message) => Some(CorridorViolation(message))
    case Ok(_) =>
      match Evidence.Validate(p.evidenceBundle)
      case Err(ev) => Some(EvidenceInvalid(ev))
      case Ok(_) =>
        var bci := BciDecision(e, env, p);
        if bci.Forbid? then Some(GuardRejection(BciCeiling, bci))
        else
          var roh := RohDecision(e, env, p);
          if roh.Forbid? then Some(MonotonicityViolation(RohGuardRejected(roh)))
          else if e.envelopeGuardEnabled && EnvelopeDecision(env, p).Forbid? then
            Some(GuardRejection(Envelope, EnvelopeDecision(env, p)))
          else
            match FirstProhibitive(e.policyProfile.neurorightsConstraints)
            case Some(name) => Some(PolicyError(ConstraintViolated(name)))
            case None => None
  }

  /** Every check passes: the one condition under which a proposal is approved. */
  ghost predicate Approves(e: Engine, env: Collaborators, p: EvolutionProposal) {
    && env.validateCorridor(p.corridorContext).Ok?
    && Evidence.WellFormed(p.evidenceBundle)
    && !BciDecision(e, env, p).Forbid?
    && !RohDecision(e, env, p).Forbid?
    && (e.envelopeGuardEnabled ==> !EnvelopeDecision(env, p).Forbid?)
    && (forall i :: 0 <= i < |e.policyProfile.neurorightsConstraints| ==>
          !Prohibitive(e.policyProfile.neurorightsConstraints[i]))
    && env.respectsMonotonicity(AuditRecordFor(e, p))
  }

  /** `evaluate_evolution`. */
  function EvaluateEvolution(e: Engine, env: Collaborators, p: EvolutionProposal)
    : (r: Result<(EvolutionOutcome, EvolutionAuditRecord), MorpheusError>)
    ensures r.Ok? <==> Approves(e, env, p)
    ensures r.Ok? ==> r.value.0 == Allowed && r.value.1 == AuditRecordFor(e, p)
    ensures r.Ok? ==> env.respectsMonotonicity(r.value.1)
    // step 1 fails first
    ensures r.Err? && r.error.CorridorViolation? <==> env.validateCorridor(p.corridorContext).Err?
    ensures env.validateCorridor(p.corridorContext).Err? ==>
      r == Err(CorridorViolation(env.validateCorridor(p.corridorContext).error))
    // step 2 fails only once step 1 passed
    ensures r.Err? && r.error.EvidenceInvalid? <==>
      env.validateCorridor(p.corridorContext).Ok? && !Evidence.WellFormed(p.evidenceBundle)
    ensures r.Err? && r.error.EvidenceInvalid? ==> r.error.evidenceError == Evidence.Validate(p.evidenceBundle).error
    // step 3
    ensures r.Err? && r.error.GuardRejection? && r.error.guard == BciCeiling <==>
      && env.validateCorridor(p.corridorContext).Ok? && Evidence.WellFormed(p.evidenceBundle)
      && BciDecision(e, env, p).Forbid?
    // step 4
    ensures r.Err? && r.error.MonotonicityViolation? && r.error.cause.RohGuardRejected? <==>
      && env.validateCorridor(p.corridorContext).Ok? && Evidence.WellFormed(p.evidenceBundle)
      && !BciDecision(e, env, p).Forbid? && RohDecision(e, env, p).Forbid?
    // step 5
    ensures r.Err? && r.error.GuardRejection? && r.error.guard == Envelope <==>
      && env.validateCorridor(p.corridorContext).Ok? && Evidence.WellFormed(p.evidenceBundle)
      && !BciDecision(e, env, p).Forbid? && !RohDecision(e, env, p).Forbid?
      && e.envelopeGuardEnabled && EnvelopeDecision(env, p).Forbid?
    // a guard rejection carries the Forbid that caused it
    ensures r.Err? && r.error.GuardRejection? ==> r.error.decision.Forbid?
    ensures r.Err? && r.error.MonotonicityViolation? && r.error.cause.RohGuardRejected? ==>
      r.error.cause.decision == RohDecision(e, env, p)
    // step 6
    ensures r.Err? && r.error.PolicyError? <==>
      && env.validateCorridor(p.corridorContext).Ok? && Evidence.WellFormed(p.evidenceBundle)
      && !BciDecision(e, env, p).Forbid? && !RohDecision(e, env, p).Forbid?
      && (e.envelopeGuardEnabled ==> !EnvelopeDecision(env, p).Forbid?)
      && (exists i :: 0 <= i < |e.policyProfile.neurorightsConstraints|
            && Prohibitive(e.policyProfile.neurorightsConstraints[i]))
    ensures r.Err? && r.error.PolicyError? ==> r.error.fault.ConstraintViolated?
    ensures r.Err? && r.error.PolicyError? ==>
      (exists i :: FirstProhibitiveAt(e.policyProfile.neurorightsConstraints, i)
         && e.policyProfile.neurorightsConstraints[i].name == r.error.fault.name)
    // step 7: the self-check
    ensures r == Err(MonotonicityViolation(AuditRecordViolation)) <==>
      Gate(e, env, p).None? && !env.respectsMonotonicity(AuditRecordFor(e, p))
  {
    match Gate(e, env, p)
    case Some(err) => Err(err)
    case None =>
      var record := AuditRecordFor(e, p);
      if !env.respectsMonotonicity(record) then Err(MonotonicityViolation(AuditRecordViolation))
      else Ok((Allowed, record))
  }

  /**
   * Cautionary decisions never block: whatever non-Forbid decisions the
   * guards return, a proposal that passes the other checks is approved.
   */
  lemma NonForbidDecisionsNeverBlock(e: Engine, env: Collaborators, p: EvolutionProposal)
    requires env.validateCorridor(p.corridorContext).Ok? && Evidence.WellFormed(p.evidenceBundle)
    requires !BciDecision(e, env, p).Forbid? && !RohDecision(e, env, p).Forbid?
    requires !EnvelopeDecision(env, p).Forbid?
    requires FirstProhibitive(e.policyProfile.neurorightsConstraints).None?
    requires env.respectsMonotonicity(AuditRecordFor(e, p))
    ensures EvaluateEvolution(e, env, p) == Ok((Allowed, AuditRecordFor(e, p)))
  {
  }

  /**
   * Only the proposed BCI value reaches the BCI guard, and only the current RoH
   * value reaches the RoH guard's constructor: the current BCI value, the DID
   * and the decision text never change which check fails first.
   */
  lemma GateIgnoresRecordOnlyFields(e: Engine, env: Collaborators, p: EvolutionProposal,
                                    did: string, decision: string, currentBci: real)
    ensures Gate(e, env, p) == Gate(e, env, p.(did := did, neuromorphicDecision := decision, currentBci := currentBci))
  {
  }

  /** An enforced constraint whose name lacks "Forbidden", or an unenforced one, never rejects. */
  lemma {:induction false} HarmlessConstraintsNeverReject(cs: seq<Policy.NeurorightsConstraint>)
    requires forall i :: 0 <= i < |cs| ==> !cs[i].enforced || !Text.Contains(cs[i].name, ForbiddenMarker)
    ensures FirstProhibitive(cs).None?
  {
    assert forall i :: 0 <= i < |cs| ==> !Prohibitive(cs[i]);
  }
}
