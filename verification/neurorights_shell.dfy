/**
 * The neurorights shell (neurorights-shell/src/lib.rs): outer actions are
 * never gated on inner-domain data, neural export is refused unless the
 * policy allows it and the data cannot be re-identified, and essential
 * services may not demand augmentation.
 */
module NeurorightsShell {
  import opened Results

  datatype EnvironmentPlane =
    | SoftwareOnly
    | BciHciEeg
    | CyberneticHardware
    | OrganicHost
    | ExternalEnvironment

  /** f32 metrics are modelled as reals. */
  datatype OuterActionRequest = OuterActionRequest(
    plane: EnvironmentPlane,
    ecoDelta: real,
    physicalRisk: real,
    policyLabel: string)

  datatype InnerDomainHint = InnerDomainHint(stress: Option<real>, cognitiveLoad: Option<real>)

  datatype NeurorightViolation =
    | InnerDomainGatingForbidden
    | NeuralExportForbidden
    | CoerciveUptake

  datatype NeurorightsPolicy = NeurorightsPolicy(
    allowNeuralExport: bool,
    allowInnerForSafetyOnly: bool,
    essentialService: bool)

  datatype Shell = Shell(policy: NeurorightsPolicy)

  /** `NeurorightsPolicy::default`: no export, inner data for safety only, not an essential service. */
  const DefaultPolicy: NeurorightsPolicy := NeurorightsPolicy(false, true, false)

  /** `authorize_outer_action`: permissions never depend on the inner hint, nor on the request. */
  function AuthorizeOuterAction(shell: Shell, inner: Option<InnerDomainHint>, outer: OuterActionRequest)
    : (r: Result<(), NeurorightViolation>)
    ensures r.Ok?
  {
    Ok(())
  }

  /** `check_neural_export`. */
  function CheckNeuralExport(shell: Shell, attemptingExport: bool, isReidentifiable: bool)
    : (r: Result<(), NeurorightViolation>)
    ensures r.Err? <==> attemptingExport && (!shell.policy.allowNeuralExport || isReidentifiable)
    ensures r.Err? ==> r.error == NeuralExportForbidden
  {
    if attemptingExport && (!shell.policy.allowNeuralExport || isReidentifiable) then
      Err(NeuralExportForbidden)
    else
      Ok(())
  }

  /** `check_augmentation_condition`. */
  function CheckAugmentationCondition(shell: Shell, requiresAugmentation: bool)
    : (r: Result<(), NeurorightViolation>)
    ensures r.Err? <==> shell.policy.essentialService && requiresAugmentation
    ensures r.Err? ==> r.error == CoerciveUptake
  {
    if shell.policy.essentialService && requiresAugmentation then Err(CoerciveUptake) else Ok(())
  }

  /**
   * Re-identifiable data never leaves the host, whatever the policy says;
   * not exporting is never a violation.
   */
  lemma ReidentifiableNeverExported(shell: Shell, attemptingExport: bool, isReidentifiable: bool)
    ensures isReidentifiable && attemptingExport ==> CheckNeuralExport(shell, attemptingExport, isReidentifiable).Err?
    ensures !attemptingExport ==> CheckNeuralExport(shell, attemptingExport, isReidentifiable).Ok?
  {
  }

  /**
   * Under the default policy every export attempt is refused and augmentation
   * is never refused; the safety-only flag is consulted by neither check.
   */
  lemma DefaultPolicyBehaviour(isReidentifiable: bool, requiresAugmentation: bool, safetyOnly: bool)
    ensures CheckNeuralExport(Shell(DefaultPolicy), true, isReidentifiable) == Err(NeuralExportForbidden)
    ensures CheckAugmentationCondition(Shell(DefaultPolicy), requiresAugmentation) == Ok(())
    ensures var other := Shell(DefaultPolicy.(allowInnerForSafetyOnly := safetyOnly));
      && CheckNeuralExport(other, true, isReidentifiable) == CheckNeuralExport(Shell(DefaultPolicy), true, isReidentifiable)
      && CheckAugmentationCondition(other, requiresAugmentation)
         == CheckAugmentationCondition(Shell(DefaultPolicy), requiresAugmentation)
  {
  }
}
