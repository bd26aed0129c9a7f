/**
 * The tiered healthcare governance validator
 * (crates/governance-healthcare/src/lib.rs): every rule a deployment policy
 * violates is collected, in rule order, and the policy passes exactly when
 * none is violated. The creation timestamp of a policy is not modelled.
 */
module HealthcareGovernance {
  import Text

  datatype ClinicalRiskTier = Low | Medium | High | Critical

  datatype ClinicalUseCase =
    | Triage
    | DiagnosticSupport
    | TreatmentRecommendation
    | Monitoring
    | Administrative
    | ResearchOnly

  datatype HitlPattern = HumanReviewRequired | HumanOverrideCapable | AutonomousWithinLimits

  datatype ConsentProfile = ConsentProfile(
    requiresIndividualConsent: bool,
    involvesIndigenousOrCommunityData: bool,
    fpicGranted: bool)

  /** Rust's `u8`. */
  type Byte = x: int | 0 <= x < 256

  datatype LoggingProfile = LoggingProfile(
    minRetentionYears: Byte,
    tamperEvidentRequired: bool,
    fullDecisionTraceRequired: bool)

  datatype DatasetProvenancePolicy = DatasetProvenancePolicy(
    requireSourceAndLicense: bool,
    requireConsentAndJurisdictionTags: bool,
    requireBiosignalLabelling: bool)

  datatype HealthcareGovernancePolicy = HealthcareGovernancePolicy(
    modelId: string,
    owner: string,
    clinicalUseCase: ClinicalUseCase,
    riskTier: ClinicalRiskTier,
    hitlPattern: HitlPattern,
    consentProfile: ConsentProfile,
    logging: LoggingProfile,
    datasetProvenance: DatasetProvenancePolicy,
    usesBiosignals: bool,
    touchesIndigenousData: bool)

  /** One constructor per error message of the validator, declared in the order the rules run. */
  datatype Violation =
    | ModelIdEmpty
    | OwnerEmpty
    | AutonomousForbiddenHighCritical
    | AutonomousForbiddenMedium
    | IndividualConsentRequired
    | FpicRequired
    | RetentionBelowSevenYears
    | TamperEvidentStorageRequired
    | FullDecisionTraceRequired
    | RetentionBelowFiveYears
    | BiosignalLabellingRequired
    | SourceAndLicenseRequired
    | ConsentAndJurisdictionTagsRequired

  datatype PolicyValidationResult = PolicyValidationResult(ok: bool, errors: seq<Violation>)

  /** `PolicyValidationResult::is_ok`. */
  predicate IsOk(r: PolicyValidationResult) {
    r.ok
  }

  /** Position of a rule in the validator's order. */
  function Rank(v: Violation): nat {
    match v
    case ModelIdEmpty => 0
    case OwnerEmpty => 1
    case AutonomousForbiddenHighCritical => 2
    case AutonomousForbiddenMedium => 3
    case IndividualConsentRequired => 4
    case FpicRequired => 5
    case RetentionBelowSevenYears => 6
    case TamperEvidentStorageRequired => 7
    case FullDecisionTraceRequired => 8
    case RetentionBelowFiveYears => 9
    case BiosignalLabellingRequired => 10
    case SourceAndLicenseRequired => 11
    case ConsentAndJurisdictionTagsRequired => 12
  }

  predicate HighStakes(t: ClinicalRiskTier) {
    t == High || t == Critical
  }

  /**
   * The rule table, stated per violation: when a policy breaks each rule.
   * This is the reference the validator is proved against.
   */
  ghost predicate Violated(p: HealthcareGovernancePolicy, v: Violation) {
    RuleBroken(p, Text.IsBlank(p.modelId), Text.IsBlank(p.owner), v)
  }

  /** The rule table once the two blank checks on the identifiers are known. */
  predicate RuleBroken(p: HealthcareGovernancePolicy, modelBlank: bool, ownerBlank: bool, v: Violation) {
    match v
    case ModelIdEmpty => modelBlank
    case OwnerEmpty => ownerBlank
    case AutonomousForbiddenHighCritical => HighStakes(p.riskTier) && p.hitlPattern == AutonomousWithinLimits
    case AutonomousForbiddenMedium => p.riskTier == Medium && p.hitlPattern == AutonomousWithinLimits
    case IndividualConsentRequired => p.riskTier != Low && !p.consentProfile.requiresIndividualConsent
    case FpicRequired =>
      (p.touchesIndigenousData || p.consentProfile.involvesIndigenousOrCommunityData) && !p.consentProfile.fpicGranted
    case RetentionBelowSevenYears => HighStakes(p.riskTier) && p.logging.minRetentionYears < 7
    case TamperEvidentStorageRequired => HighStakes(p.riskTier) && !p.logging.tamperEvidentRequired
    case FullDecisionTraceRequired => HighStakes(p.riskTier) && !p.logging.fullDecisionTraceRequired
    case RetentionBelowFiveYears => p.riskTier == Medium && p.logging.minRetentionYears < 5
    case BiosignalLabellingRequired => p.usesBiosignals && !p.datasetProvenance.requireBiosignalLabelling
    case SourceAndLicenseRequired => !p.datasetProvenance.requireSourceAndLicense
    case ConsentAndJurisdictionTagsRequired => !p.datasetProvenance.requireConsentAndJurisdictionTags
  }

  /** Strictly increasing in rule order, hence also free of repeats. */
  predicate RankOrdered(s: seq<Violation>) {
    forall i, j :: 0 <= i < j < |s| ==> Rank(s[i]) < Rank(s[j])
  }

  function When(condition: bool, v: Violation): (r: seq<Violation>)
    ensures forall w :: w in r <==> condition && w == v
    ensures |r| <= 1
  {
    if condition then [v] else []
  }

  /** Rule 1: identifiers must not be blank. */
  function Identity(p: HealthcareGovernancePolicy, modelBlank: bool, ownerBlank: bool): (errors: seq<Violation>)
    ensures forall v :: v in errors <==> RuleBroken(p, modelBlank, ownerBlank, v) && Rank(v) <= 1
    ensures |errors| <= 2
  {
    When(modelBlank, ModelIdEmpty) + When(ownerBlank, OwnerEmpty)
  }

  /** Rule 2: human oversight by tier. */
  function Oversight(p: HealthcareGovernancePolicy, modelBlank: bool, ownerBlank: bool): (errors: seq<Violation>)
    ensures forall v :: v in errors <==> RuleBroken(p, modelBlank, ownerBlank, v) && 2 <= Rank(v) <= 3
    ensures |errors| <= 1
  {
    match p.riskTier
    case High | Critical => When(p.hitlPattern == AutonomousWithinLimits, AutonomousForbiddenHighCritical)
    case Medium => When(p.hitlPattern == AutonomousWithinLimits, AutonomousForbiddenMedium)
    case Low => []
  }

  /** Rules 3 and 4: individual consent by tier, then FPIC for Indigenous or community data. */
  function Consent(p: HealthcareGovernancePolicy, modelBlank: bool, ownerBlank: bool): (errors: seq<Violation>)
    ensures forall v :: v in errors <==> RuleBroken(p, modelBlank, ownerBlank, v) && 4 <= Rank(v) <= 5
    ensures |errors| <= 2
  {
    When(p.riskTier != Low && !p.consentProfile.requiresIndividualConsent, IndividualConsentRequired)
    + When((p.touchesIndigenousData || p.consentProfile.involvesIndigenousOrCommunityData)
           && !p.consentProfile.fpicGranted, FpicRequired)
  }

  /** Rule 5: logging by tier. */
  function Logging(p: HealthcareGovernancePolicy, modelBlank: bool, ownerBlank: bool): (errors: seq<Violation>)
    ensures forall v :: v in errors <==> RuleBroken(p, modelBlank, ownerBlank, v) && 6 <= Rank(v) <= 9
    ensures |errors| <= 3
  {
    match p.riskTier
    case Low => []
    case Medium => When(p.logging.minRetentionYears < 5, RetentionBelowFiveYears)
    case High | Critical => StrictLogging(p.logging)
  }

  /** The three logging requirements of the High and Critical tiers. */
  function StrictLogging(logging: LoggingProfile): (errors: seq<Violation>)
    ensures forall v :: v in errors <==>
      || (v == RetentionBelowSevenYears && logging.minRetentionYears < 7)
      || (v == TamperEvidentStorageRequired && !logging.tamperEvidentRequired)
      || (v == FullDecisionTraceRequired && !logging.fullDecisionTraceRequired)
    ensures |errors| <= 3
  {
    When(logging.minRetentionYears < 7, RetentionBelowSevenYears)
    + When(!logging.tamperEvidentRequired, TamperEvidentStorageRequired)
    + When(!logging.fullDecisionTraceRequired, FullDecisionTraceRequired)
  }

  /** Rules 6 and 7: dataset provenance. */
  function Provenance(p: HealthcareGovernancePolicy, modelBlank: bool, ownerBlank: bool): (errors: seq<Violation>)
    ensures forall v :: v in errors <==> RuleBroken(p, modelBlank, ownerBlank, v) && 10 <= Rank(v)
    ensures |errors| <= 3
  {
    When(p.usesBiosignals && !p.datasetProvenance.requireBiosignalLabelling, BiosignalLabellingRequired)
    + When(!p.datasetProvenance.requireSourceAndLicense, SourceAndLicenseRequired)
    + When(!p.datasetProvenance.requireConsentAndJurisdictionTags, ConsentAndJurisdictionTagsRequired)
  }

  /** Each rule group reports its violations in rule order. */
  lemma GroupsOrdered(p: HealthcareGovernancePolicy, modelBlank: bool, ownerBlank: bool)
    ensures RankOrdered(Identity(p, modelBlank, ownerBlank))
    ensures RankOrdered(Oversight(p, modelBlank, ownerBlank))
    ensures RankOrdered(Consent(p, modelBlank, ownerBlank))
    ensures RankOrdered(Logging(p, modelBlank, ownerBlank))
    ensures RankOrdered(Provenance(p, modelBlank, ownerBlank))
  {
    TwoOrdered(modelBlank, ModelIdEmpty, ownerBlank, OwnerEmpty);
    TwoOrdered(p.riskTier != Low && !p.consentProfile.requiresIndividualConsent, IndividualConsentRequired,
      (p.touchesIndigenousData || p.consentProfile.involvesIndigenousOrCommunityData) && !p.consentProfile.fpicGranted,
      FpicRequired);
    LoggingOrdered(p, modelBlank, ownerBlank);
    ProvenanceOrdered(p, modelBlank, ownerBlank);
  }

  lemma LoggingOrdered(p: HealthcareGovernancePolicy, modelBlank: bool, ownerBlank: bool)
    ensures RankOrdered(Logging(p, modelBlank, ownerBlank))
  {
    ThreeOrdered(p.logging.minRetentionYears < 7, RetentionBelowSevenYears,
      !p.logging.tamperEvidentRequired, TamperEvidentStorageRequired,
      !p.logging.fullDecisionTraceRequired, FullDecisionTraceRequired);
  }

  lemma ProvenanceOrdered(p: HealthcareGovernancePolicy, modelBlank: bool, ownerBlank: bool)
    ensures RankOrdered(Provenance(p, modelBlank, ownerBlank))
  {
    ThreeOrdered(p.usesBiosignals && !p.datasetProvenance.requireBiosignalLabelling, BiosignalLabellingRequired,
      !p.datasetProvenance.requireSourceAndLicense, SourceAndLicenseRequired,
      !p.datasetProvenance.requireConsentAndJurisdictionTags, ConsentAndJurisdictionTagsRequired);
  }

  lemma TwoOrdered(c1: bool, v1: Violation, c2: bool, v2: Violation)
    requires Rank(v1) < Rank(v2)
    ensures RankOrdered(When(c1, v1) + When(c2, v2))
  {
  }

  lemma ThreeOrdered(c1: bool, v1: Violation, c2: bool, v2: Violation, c3: bool, v3: Violation)
    requires Rank(v1) < Rank(v2) < Rank(v3)
    ensures RankOrdered(When(c1, v1) + When(c2, v2) + When(c3, v3))
  {
  }

  /** Two rank-ordered lists whose ranks do not overlap concatenate to a rank-ordered list. */
  lemma ConcatOrdered(a: seq<Violation>, b: seq<Violation>, bound: nat)
    requires forall i, j :: 0 <= i < j < |a| ==> Rank(a[i]) < Rank(a[j])
    requires forall i, j :: 0 <= i < j < |b| ==> Rank(b[i]) < Rank(b[j])
    requires forall v :: v in a ==> Rank(v) < bound
    requires forall v :: v in b ==> bound <= Rank(v)
    ensures forall i, j :: 0 <= i < j < |a + b| ==> Rank((a + b)[i]) < Rank((a + b)[j])
  {
    forall i, j | 0 <= i < j < |a + b|
      ensures Rank((a + b)[i]) < Rank((a + b)[j])
    {
      if j < |a| {
      } else if i >= |a| {
        assert (a + b)[i] == b[i - |a|] && (a + b)[j] == b[j - |a|];
      } else {
        assert (a + b)[i] == a[i] && a[i] in a;
        assert (a + b)[j] == b[j - |a|] && b[j - |a|] in b;
      }
    }
  }

  /** All rules in order, once the blank checks are known. */
  function AllErrors(p: HealthcareGovernancePolicy, modelBlank: bool, ownerBlank: bool): (errors: seq<Violation>)
    ensures forall v :: v in errors <==> RuleBroken(p, modelBlank, ownerBlank, v)
    ensures forall i, j :: 0 <= i < j < |errors| ==> Rank(errors[i]) < Rank(errors[j])
    ensures |errors| <= 11
  {
    var a := Identity(p, modelBlank, ownerBlank);
    var o := Oversight(p, modelBlank, ownerBlank);
    var b := Consent(p, modelBlank, ownerBlank);
    var c := Logging(p, modelBlank, ownerBlank);
    var d := Provenance(p, modelBlank, ownerBlank);
    GroupsOrdered(p, modelBlank, ownerBlank);
    ConcatOrdered(a, o, 2);
    ConcatOrdered(a + o, b, 4);
    ConcatOrdered(a + o + b, c, 6);
    ConcatOrdered(a + o + b + c, d, 10);
    a + o + b + c + d
  }

  /** `validate_healthcare_policy`. */
  function ValidateHealthcarePolicy(p: HealthcareGovernancePolicy): (r: PolicyValidationResult)
    ensures IsOk(r) <==> |r.errors| == 0
    ensures forall v :: v in r.errors <==> Violated(p, v)
    ensures forall i, j :: 0 <= i < j < |r.errors| ==> Rank(r.errors[i]) < Rank(r.errors[j])
    ensures |r.errors| <= 11
  {
    var errors := AllErrors(p, Text.IsBlank(p.modelId), Text.IsBlank(p.owner));
    PolicyValidationResult(|errors| == 0, errors)
  }

  /** A policy passes exactly when it breaks no rule of the table. */
  lemma PassesIffNoRuleBroken(p: HealthcareGovernancePolicy)
    ensures IsOk(ValidateHealthcarePolicy(p)) <==> forall v :: !Violated(p, v)
  {
    var r := ValidateHealthcarePolicy(p);
    if !IsOk(r) {
      assert r.errors[0] in r.errors;
    }
  }

  /** An autonomous pattern costs exactly one oversight error at Medium, High and Critical, none at Low. */
  lemma AutonomousOversightErrors(p: HealthcareGovernancePolicy)
    requires p.hitlPattern == AutonomousWithinLimits
    ensures var errors := ValidateHealthcarePolicy(p).errors;
      (AutonomousForbiddenHighCritical in errors) != (AutonomousForbiddenMedium in errors) <==> p.riskTier != Low
  {
  }

  lemma RankInjective(x: Violation, y: Violation)
    ensures Rank(x) == Rank(y) ==> x == y
  {
  }

  /**
   * A rank-ordered list is determined by its members: the validator's output
   * is the only rank-ordered list of the violated rules.
   */
  lemma {:induction false} OrderedUnique(a: seq<Violation>, b: seq<Violation>)
    requires forall i, j :: 0 <= i < j < |a| ==> Rank(a[i]) < Rank(a[j])
    requires forall i, j :: 0 <= i < j < |b| ==> Rank(b[i]) < Rank(b[j])
    requires forall v :: v in a <==> v in b
    ensures a == b
    decreases |a|
  {
    assert |a| > 0 ==> a[0] in a;
    assert |b| > 0 ==> b[0] in b;
    if |a| > 0 {
      assert a[0] in b;
      HeadIsLeast(a);
      HeadIsLeast(b);
      assert b[0] in a;
      RankInjective(a[0], b[0]);
      forall v
        ensures v in a[1..] <==> v in b[1..]
      {
        if v in a[1..] {
          var i :| 0 <= i < |a| - 1 && a[1..][i] == v;
          assert Rank(a[0]) < Rank(a[i + 1]);
          assert v in b;
        }
        if v in b[1..] {
          var i :| 0 <= i < |b| - 1 && b[1..][i] == v;
          assert Rank(b[0]) < Rank(b[i + 1]);
          assert v in a;
        }
      }
      OrderedUnique(a[1..], b[1..]);
      assert a == [a[0]] + a[1..] && b == [b[0]] + b[1..];
    }
  }

  lemma HeadIsLeast(a: seq<Violation>)
    requires |a| > 0
    requires forall i, j :: 0 <= i < j < |a| ==> Rank(a[i]) < Rank(a[j])
    ensures forall v :: v in a ==> Rank(a[0]) <= Rank(v)
  {
  }

  /** Two policies that break the same rules get the same result. */
  lemma SameRulesSameResult(p: HealthcareGovernancePolicy, q: HealthcareGovernancePolicy)
    requires forall v :: Violated(p, v) <==> Violated(q, v)
    ensures ValidateHealthcarePolicy(p) == ValidateHealthcarePolicy(q)
  {
    OrderedUnique(ValidateHealthcarePolicy(p).errors, ValidateHealthcarePolicy(q).errors);
  }

  /** The same, once the blank checks are known: the error list depends only on which rules are broken. */
  lemma SameRulesSameErrors(p: HealthcareGovernancePolicy, q: HealthcareGovernancePolicy, modelBlank: bool, ownerBlank: bool)
    requires forall v :: RuleBroken(p, modelBlank, ownerBlank, v) <==> RuleBroken(q, modelBlank, ownerBlank, v)
    ensures AllErrors(p, modelBlank, ownerBlank) == AllErrors(q, modelBlank, ownerBlank)
  {
    OrderedUnique(AllErrors(p, modelBlank, ownerBlank), AllErrors(q, modelBlank, ownerBlank));
  }

  /** The use case never influences the verdict. */
  lemma UseCaseIrrelevant(p: HealthcareGovernancePolicy, useCase: ClinicalUseCase)
    ensures ValidateHealthcarePolicy(p.(clinicalUseCase := useCase)) == ValidateHealthcarePolicy(p)
  {
    var q := p.(clinicalUseCase := useCase);
    var modelBlank, ownerBlank := Text.IsBlank(p.modelId), Text.IsBlank(p.owner);
    assert q.modelId == p.modelId && q.owner == p.owner;
    forall v
      ensures RuleBroken(p, modelBlank, ownerBlank, v) <==> RuleBroken(q, modelBlank, ownerBlank, v)
    {
    }
    SameRulesSameErrors(p, q, modelBlank, ownerBlank);
  }

  /** High and Critical are held to the same rules. */
  lemma HighAndCriticalAgree(p: HealthcareGovernancePolicy)
    ensures ValidateHealthcarePolicy(p.(riskTier := High)) == ValidateHealthcarePolicy(p.(riskTier := Critical))
  {
    var h, c := p.(riskTier := High), p.(riskTier := Critical);
    var modelBlank, ownerBlank := Text.IsBlank(p.modelId), Text.IsBlank(p.owner);
    assert h.modelId == c.modelId == p.modelId && h.owner == c.owner == p.owner;
    forall v
      ensures RuleBroken(h, modelBlank, ownerBlank, v) <==> RuleBroken(c, modelBlank, ownerBlank, v)
    {
    }
    SameRulesSameErrors(h, c, modelBlank, ownerBlank);
  }

  /** A policy that passes at High also passes once its tier is lowered to Medium or Low. */
  lemma PassingAtHighPassesBelow(p: HealthcareGovernancePolicy)
    requires IsOk(ValidateHealthcarePolicy(p.(riskTier := High)))
    ensures IsOk(ValidateHealthcarePolicy(p.(riskTier := Medium)))
    ensures IsOk(ValidateHealthcarePolicy(p.(riskTier := Low)))
  {
    var h, m, l := p.(riskTier := High), p.(riskTier := Medium), p.(riskTier := Low);
    var modelBlank, ownerBlank := Text.IsBlank(p.modelId), Text.IsBlank(p.owner);
    assert h.modelId == m.modelId == l.modelId == p.modelId && h.owner == m.owner == l.owner == p.owner;
    var atHigh := AllErrors(h, modelBlank, ownerBlank);
    assert |atHigh| == 0;
    NoneBrokenMeansNoErrors(m, modelBlank, ownerBlank);
    NoneBrokenMeansNoErrors(l, modelBlank, ownerBlank);
  }

  /** A policy that breaks no rule at High breaks none at Medium or Low. */
  lemma NoneBrokenMeansNoErrors(q: HealthcareGovernancePolicy, modelBlank: bool, ownerBlank: bool)
    requires q.riskTier != High && q.riskTier != Critical
    requires |AllErrors(q.(riskTier := High), modelBlank, ownerBlank)| == 0
    ensures |AllErrors(q, modelBlank, ownerBlank)| == 0
  {
    var errors := AllErrors(q, modelBlank, ownerBlank);
    var atHigh := AllErrors(q.(riskTier := High), modelBlank, ownerBlank);
    forall v
      ensures !RuleBroken(q, modelBlank, ownerBlank, v)
    {
      assert v !in atHigh;
      assert RuleBroken(q, modelBlank, ownerBlank, v) ==> RuleBroken(q.(riskTier := High), modelBlank, ownerBlank, v);
    }
  }
}
