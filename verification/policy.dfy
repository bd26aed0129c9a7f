/**
 * Pluggable policy profiles (crates/morpheus-client/src/types/policy.rs):
 * named neurorights constraints, a biomechanical policy with the BCI ceiling,
 * a minimum-rights floor and jurisdiction presets. The effective date is a
 * timestamp and is not modelled.
 */
module Policy {
  import opened Results

  datatype NeurorightsConstraint = NeurorightsConstraint(name: string, description: string, enforced: bool)

  /** `max_session_minutes` is a u32 in the source; its width is not enforced here. */
  datatype BiomechPolicy = BiomechPolicy(
    moduleScope: string,
    riskClass: string,
    maxEffectSize: real,
    maxDutyCycle: real,
    maxSessionMinutes: nat,
    bciCeiling: real)

  datatype PolicyProfile = PolicyProfile(
    name: string,
    version: string,
    neurorightsConstraints: seq<NeurorightsConstraint>,
    biomechPolicy: BiomechPolicy,
    corridorPolytopes: map<string, seq<real>>,
    minimumRights: seq<string>,
    authority: string,
    notes: Option<string>)

  /** The reasons `validate` gives, in the order it checks them. */
  datatype ProfileError =
    | EmptyName
    | EmptyAuthority
    | BciCeilingOutOfRange
    | EmptyMinimumRights

  const DefaultBciCeiling: real := 0.25

  const DefaultMinimumRights: seq<string> :=
    ["right_to_consent", "right_to_abort", "right_to_identity", "right_to_privacy"]

  /** Every structural requirement a profile must meet, as one conjunction. */
  predicate WellFormed(p: PolicyProfile) {
    && |p.name| > 0
    && |p.authority| > 0
    && 0.0 <= p.biomechPolicy.bciCeiling <= 1.0
    && |p.minimumRights| > 0
  }

  /** `PolicyProfile::new`: an observer-scope, medium-risk profile with the default ceiling. */
  function New(name: string, version: string, authority: string): (p: PolicyProfile)
    ensures p.name == name && p.version == version && p.authority == authority
    ensures p.neurorightsConstraints == [] && p.corridorPolytopes == map[] && p.notes == None
    ensures p.minimumRights == DefaultMinimumRights
    ensures p.biomechPolicy == BiomechPolicy("observer", "medium", 0.5, 0.5, 60, DefaultBciCeiling)
    ensures Validate(p).Ok? <==> |name| > 0 && |authority| > 0
  {
    PolicyProfile(
      name, version, [],
      BiomechPolicy("observer", "medium", 0.5, 0.5, 60, DefaultBciCeiling),
      map[], DefaultMinimumRights, authority, None)
  }

  /** `add_neurorights_constraint`: one constraint appended, every other field kept. */
  function AddNeurorightsConstraint(p: PolicyProfile, c: NeurorightsConstraint): (r: PolicyProfile)
    ensures r.neurorightsConstraints == p.neurorightsConstraints + [c]
    ensures r.(neurorightsConstraints := p.neurorightsConstraints) == p
  {
    p.(neurorightsConstraints := p.neurorightsConstraints + [c])
  }

  /** `validate`: the first failing check, in the source's order. */
  function Validate(p: PolicyProfile): (r: Result<(), ProfileError>)
    ensures r.Ok? <==> WellFormed(p)
    ensures r == Err(EmptyName) <==> |p.name| == 0
    ensures r == Err(EmptyAuthority) <==> |p.name| > 0 && |p.authority| == 0
    ensures r == Err(BciCeilingOutOfRange) <==>
      |p.name| > 0 && |p.authority| > 0 && !(0.0 <= p.biomechPolicy.bciCeiling <= 1.0)
    ensures r == Err(EmptyMinimumRights) <==>
      |p.name| > 0 && |p.authority| > 0 && 0.0 <= p.biomechPolicy.bciCeiling <= 1.0 && |p.minimumRights| == 0
  {
    if |p.name| == 0 then Err(EmptyName)
    else if |p.authority| == 0 then Err(EmptyAuthority)
    else if p.biomechPolicy.bciCeiling < 0.0 || p.biomechPolicy.bciCeiling > 1.0 then Err(BciCeilingOutOfRange)
    else if |p.minimumRights| == 0 then Err(EmptyMinimumRights)
    else Ok(())
  }

  /** `i` is the position of the first constraint called `name`. */
  ghost predicate FirstNamed(cs: seq<NeurorightsConstraint>, name: string, i: int) {
    0 <= i < |cs| && cs[i].name == name && forall j :: 0 <= j < i ==> cs[j].name != name
  }

  /** Position of the first constraint with exactly this name, if any. */
  function FindConstraint(cs: seq<NeurorightsConstraint>, name: string): (r: Option<nat>)
    ensures r.None? <==> forall i :: 0 <= i < |cs| ==> cs[i].name != name
    ensures r.Some? ==> FirstNamed(cs, name, r.value)
    decreases |cs|
  {
    if |cs| == 0 then None
    else if cs[0].name == name then Some(0)
    else match FindConstraint(cs[1..], name)
      case None => None
      case Some(i) => Some(i + 1)
  }

  /** `is_constraint_enforced`: the flag of the first constraint with that exact name; false when none has it. */
  function IsConstraintEnforced(p: PolicyProfile, name: string): (r: bool)
    ensures r <==> exists i :: FirstNamed(p.neurorightsConstraints, name, i) && p.neurorightsConstraints[i].enforced
    ensures (forall i :: 0 <= i < |p.neurorightsConstraints| ==> p.neurorightsConstraints[i].name != name) ==> !r
  {
    match FindConstraint(p.neurorightsConstraints, name)
    case None => false
    case Some(i) => p.neurorightsConstraints[i].enforced
  }

  /** Appending a constraint whose name is new makes `is_constraint_enforced` report its flag. */
  lemma {:induction false} AddedConstraintIsFound(p: PolicyProfile, c: NeurorightsConstraint)
    requires forall i :: 0 <= i < |p.neurorightsConstraints| ==> p.neurorightsConstraints[i].name != c.name
    ensures IsConstraintEnforced(AddNeurorightsConstraint(p, c), c.name) == c.enforced
  {
    var cs := AddNeurorightsConstraint(p, c).neurorightsConstraints;
    assert FirstNamed(cs, c.name, |cs| - 1);
    forall i | FirstNamed(cs, c.name, i)
      ensures i == |cs| - 1
    {
    }
  }

  /** The EU preset: ceiling 0.20 and two enforced constraints. */
  function EuNeurorights(): (p: PolicyProfile)
    ensures p.name == "EU_neurorights" && p.authority == "EU_AI_Act"
    ensures p.biomechPolicy.bciCeiling == 0.20
    ensures |p.neurorightsConstraints| == 2
    ensures forall i :: 0 <= i < 2 ==> p.neurorightsConstraints[i].enforced
    ensures p.neurorightsConstraints[0].name == "noSubconsciousTargeting"
    ensures p.neurorightsConstraints[1].name == "noInnerStateGovernance"
    ensures Validate(p).Ok?
  {
    var p := New("EU_neurorights", "1.0", "EU_AI_Act");
    var p := AddNeurorightsConstraint(p, NeurorightsConstraint(
      "noSubconsciousTargeting", "Prohibit targeting subconscious neural processes", true));
    var p := AddNeurorightsConstraint(p, NeurorightsConstraint(
      "noInnerStateGovernance", "Prohibit using inner-state biomarkers for governance", true));
    p.(biomechPolicy := p.biomechPolicy.(bciCeiling := 0.20))
  }

  /** Both constraints of the EU preset are reported as enforced. */
  lemma EuConstraintsEnforced()
    ensures IsConstraintEnforced(EuNeurorights(), "noSubconsciousTargeting")
    ensures IsConstraintEnforced(EuNeurorights(), "noInnerStateGovernance")
  {
    var cs := EuNeurorights().neurorightsConstraints;
    assert FirstNamed(cs, "noSubconsciousTargeting", 0);
    assert cs[0].name != "noInnerStateGovernance" by {
      assert cs[0].name[2] != "noInnerStateGovernance"[2];
    }
    assert FirstNamed(cs, "noInnerStateGovernance", 1);
  }

  /** The Chile preset: ceiling 0.25 and two enforced constraints. */
  function ChileNeurorights(): (p: PolicyProfile)
    ensures p.name == "Chile_neurorights" && p.authority == "Chilean_Constitutional_Amendment"
    ensures p.biomechPolicy.bciCeiling == 0.25
    ensures |p.neurorightsConstraints| == 2
    ensures forall i :: 0 <= i < 2 ==> p.neurorightsConstraints[i].enforced
    ensures p.neurorightsConstraints[0].name == "mentalPrivacy"
    ensures p.neurorightsConstraints[1].name == "psych_integrity"
    ensures Validate(p).Ok?
  {
    var p := New("Chile_neurorights", "1.0", "Chilean_Constitutional_Amendment");
    var p := AddNeurorightsConstraint(p, NeurorightsConstraint(
      "mentalPrivacy", "Protect mental privacy and freedom of thought", true));
    var p := AddNeurorightsConstraint(p, NeurorightsConstraint(
      "psych_integrity", "Protect psychological integrity", true));
    p.(biomechPolicy := p.biomechPolicy.(bciCeiling := 0.25))
  }

  /** The Phoenix medical preset: bounded-auto scope, high risk, 120-minute sessions, default ceiling. */
  function PhoenixMedical(): (p: PolicyProfile)
    ensures p.name == "Phoenix_medical" && p.authority == "Phoenix_Medical_Authority"
    ensures p.biomechPolicy.moduleScope == "bounded-auto"
    ensures p.biomechPolicy.riskClass == "high"
    ensures p.biomechPolicy.maxSessionMinutes == 120
    ensures p.biomechPolicy.bciCeiling == DefaultBciCeiling
    ensures p.neurorightsConstraints == []
    ensures Validate(p).Ok?
  {
    var p := New("Phoenix_medical", "1.0", "Phoenix_Medical_Authority");
    p.(biomechPolicy := p.biomechPolicy.(moduleScope := "bounded-auto", riskClass := "high", maxSessionMinutes := 120))
  }
}
