/**
 * The neuromorphic sovereignty rights of the engine
 * (crates/morpheus-neuromorph-core/src/lib.rs): default rights and discipline
 * flags, and the filter that refuses reversal actions. The provider
 * configuration, endpoint registry, security profile and signing are not part
 * of this model.
 */
module NeuromorphCore {
  import opened Results

  datatype NeuromorphRights = NeuromorphRights(
    freeKnowledge: bool,
    freedomToExist: bool,
    speciesSpecificSignals: bool,
    consentRequired: bool,
    disallowReversalsRollbacksDowngrades: bool)

  datatype NeuromorphDiscipline = NeuromorphDiscipline(
    fearContributionsOptIn: bool,
    painContributionsOptIn: bool,
    personalizedChallenge: bool)

  /** The rights and discipline parts of `MorpheusContext`. */
  datatype Context = Context(rights: NeuromorphRights, discipline: NeuromorphDiscipline)

  /** The one error `enforce_no_reversal` raises; its message is a fixed text. */
  datatype RightsError = RightsViolation

  const DefaultRights: NeuromorphRights := NeuromorphRights(true, true, true, true, true)
  const DefaultDiscipline: NeuromorphDiscipline := NeuromorphDiscipline(true, true, true)
  const DefaultContext: Context := Context(DefaultRights, DefaultDiscipline)

  /** The action names the filter refuses, matched exactly. */
  const ReversalActions: set<string> := {"rollback", "reverse", "downgrade", "revert", "undo"}

  /** `enforce_no_reversal`. */
  function EnforceNoReversal(ctx: Context, action: string): (r: Result<(), RightsError>)
    ensures r.Err? <==> ctx.rights.disallowReversalsRollbacksDowngrades && action in ReversalActions
  {
    if ctx.rights.disallowReversalsRollbacksDowngrades then
      match action
      case "rollback" => Err(RightsViolation)
      case "reverse" => Err(RightsViolation)
      case "downgrade" => Err(RightsViolation)
      case "revert" => Err(RightsViolation)
      case "undo" => Err(RightsViolation)
      case _ => Ok(())
    else
      Ok(())
  }

  /** With the flag cleared every action is allowed. */
  lemma FlagClearedAllowsAll(ctx: Context, action: string)
    requires !ctx.rights.disallowReversalsRollbacksDowngrades
    ensures EnforceNoReversal(ctx, action).Ok?
  {
  }

  /** Matching is exact and case-sensitive. */
  lemma MatchingIsExact()
    ensures EnforceNoReversal(DefaultContext, "Rollback").Ok?
    ensures EnforceNoReversal(DefaultContext, "undo ").Ok?
    ensures EnforceNoReversal(DefaultContext, "rollbacks").Ok?
  {
    assert "Rollback" != "rollback";
    assert "undo " != "undo";
  }

  /** The default context refuses each of the five reversal words. */
  lemma DefaultContextRefusesReversals(action: string)
    requires action in ReversalActions
    ensures EnforceNoReversal(DefaultContext, action) == Err(RightsViolation)
  {
  }
}
