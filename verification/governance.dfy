/**
 * The downgrade request of the sovereignty kernel
 * (crates/morpheus-googolswarm/morpheus-core/src/governance.rs). The rights
 * ledger entry, the reversal conditions and the capability tier are declared
 * in files that are not part of this model, so they are type parameters here
 * and the two permission checks are passed in.
 */
module Governance {
  import opened Results

  datatype CapabilityState<Tier> = CapabilityState(tier: Tier, canSelfModify: bool, canRequestTransition: bool)

  datatype GovernanceContext<Entry, Tier> = GovernanceContext(rightsEntry: Entry, capabilityState: CapabilityState<Tier>)

  /** Why a downgrade is refused; the source gives each reason as a message of `ReversalForbidden`. */
  datatype ForbiddenReason = GloballyDisallowed | ConditionsNotSatisfied

  datatype GovernanceError = ReversalForbidden(reason: ForbiddenReason)

  /**
   * `GovernanceContext::request_downgrade`: the subject's ledger entry is
   * consulted first, then the reversal conditions; on success the current
   * capability state comes back with self-modification switched off.
   */
  function RequestDowngrade<Entry, Tier, Conditions>(
    ctx: GovernanceContext<Entry, Tier>,
    reversal: Conditions,
    isReversalAllowed: Entry -> bool,
    permitsDowngrade: Conditions -> bool): (r: Result<CapabilityState<Tier>, GovernanceError>)
    ensures r.Ok? <==> isReversalAllowed(ctx.rightsEntry) && permitsDowngrade(reversal)
    ensures !isReversalAllowed(ctx.rightsEntry) ==> r == Err(ReversalForbidden(GloballyDisallowed))
    ensures isReversalAllowed(ctx.rightsEntry) && !permitsDowngrade(reversal) ==>
      r == Err(ReversalForbidden(ConditionsNotSatisfied))
    ensures r.Ok? ==> !r.value.canSelfModify
    ensures r.Ok? ==> r.value.tier == ctx.capabilityState.tier
    ensures r.Ok? ==> r.value.canRequestTransition == ctx.capabilityState.canRequestTransition
  {
    if !isReversalAllowed(ctx.rightsEntry) then
      Err(ReversalForbidden(GloballyDisallowed))
    else if !permitsDowngrade(reversal) then
      Err(ReversalForbidden(ConditionsNotSatisfied))
    else
      Ok(ctx.capabilityState.(canSelfModify := false))
  }

  /** A second downgrade from the downgraded state gives the same state again. */
  lemma DowngradeIdempotent<Entry, Tier, Conditions>(
    ctx: GovernanceContext<Entry, Tier>,
    reversal: Conditions,
    isReversalAllowed: Entry -> bool,
    permitsDowngrade: Conditions -> bool)
    requires RequestDowngrade(ctx, reversal, isReversalAllowed, permitsDowngrade).Ok?
    ensures var next := RequestDowngrade(ctx, reversal, isReversalAllowed, permitsDowngrade).value;
      RequestDowngrade(ctx.(capabilityState := next), reversal, isReversalAllowed, permitsDowngrade) == Ok(next)
  {
  }

  /** The outcome depends on the capability state only through the returned copy. */
  lemma VerdictIgnoresCapabilityState<Entry, Tier, Conditions>(
    ctx: GovernanceContext<Entry, Tier>,
    state: CapabilityState<Tier>,
    reversal: Conditions,
    isReversalAllowed: Entry -> bool,
    permitsDowngrade: Conditions -> bool)
    ensures RequestDowngrade(ctx.(capabilityState := state), reversal, isReversalAllowed, permitsDowngrade).Ok?
      == RequestDowngrade(ctx, reversal, isReversalAllowed, permitsDowngrade).Ok?
  {
  }
}
