# Morpheus guards and validators, modelled in Dafny

This project models the decision logic of the Morpheus workspace. Each piece is a guard or validator that decides whether a proposed change may go ahead. All of them are pure and sequential, so each becomes a Dafny function over immutable datatypes, with a `Result`/`Option` datatype for the error paths. The modelled pieces are:

- **Reconciliation engine** (`Reconciliation`). Builds the engine from a policy profile and swaps the profile later. It evaluates an evolution proposal through a fixed chain of checks where the first failure wins: corridor, evidence, BCI guard, RoH guard, envelope guard, neurorights constraints, then the audit self-check. The guards, the corridor validator and the audit self-check live in files outside this model, so they are function-valued parameters (`Collaborators`).
- **Microspace integrity guard** (`MicrospaceGuard`). Three ceiling lookups keyed by category, each with a fallback default. Each check has a soft band, and the combined verdict follows a fixed precedence. The shared four-way `GuardDecision` is in `GuardDecisions`.
- **Healthcare governance validator** (`HealthcareGovernance`). A tiered rule set that collects every broken rule, in rule order.
- **Policy profiles and evidence bundles** (`Policy`, `Evidence`):
  - first-error validation;
  - the clamping constructor;
  - lookup of a constraint by name;
  - the three jurisdiction presets;
  - the effective margin.
- **Small decision rules**:
  - the neurorights shell (`NeurorightsShell`);
  - the no-reversal action filter (`NeuromorphCore`);
  - the downgrade request of the sovereignty kernel (`Governance`).
- **ALN documents** (`Aln`, `AlnParser`). The `KEY=value` line parser and `get_values`. `Text` holds the parts of Rust's string API the parser and the validator rely on: Unicode `trim`, `split_once`, `lines` and blankness.
- **Selection and ranking rules**:
  - the intake-window argmax (`IntakeOptimizer`);
  - the schedule filter with its stable descending sort (`ScheduleRanking`);
  - grouping water samples by node and contaminant (`PhoenixGrouping`);
  - the dashboard score band (`ScoreBand`);
  - the viability envelope (`Viability`) and the Lyapunov residual (`Lyapunov`).

  The CEIM water-quality kernel is an uninterpreted function (`Ceim.Kernel`).

Conventions:
- `f64` values are `real`. `u32`/`u64` are `nat`, and the healthcare log retention, a `u8`, is `Byte` (an integer in [0, 256)).
- `Vec` is `seq` and `HashMap` is `map`.
- Message strings become enum tags. The exception is the name of a violated neurorights constraint, which the error keeps.

## Model

| member | source | states |
|---|---|---|
| GuardDecisions.Severity | crates/morpheus-client/src/nanoswarm/microspace_guard.rs:139-165 | Forbid outranks the two cautionary decisions, which outrank AllowFull. Rank 0 holds exactly for AllowFull and rank 2 exactly for Forbid. |
| Evidence.Clamp | crates/morpheus-client/src/types/evidence.rs:48-49 | The result lies in [lo, hi]. It equals the input when the input is inside and the nearer bound when it is outside. |
| Evidence.New | crates/morpheus-client/src/types/evidence.rs:44-53 | A new bundle keeps its id, has no tags and no provenance, and holds the factor and uncertainty clamped into [0,1]: unchanged inside, 0 below, 1 above. |
| Evidence.AddTag | crates/morpheus-client/src/types/evidence.rs:56-58 | Exactly one tag is appended at the end; every other field is unchanged. |
| Evidence.Validate | crates/morpheus-client/src/types/evidence.rs:61-78 | Ok iff the bundle is well formed. Each error is returned exactly when it is the first failing check, in the order: empty id, no tags, more than 20 tags, factor out of range, uncertainty out of range. |
| Evidence.EffectiveMargin | crates/morpheus-client/src/types/evidence.rs:81-83 | With both inputs in [0,1] the margin is in [0,1] and never above the knowledge factor. Zero uncertainty gives the factor itself; full uncertainty gives 0. |
| Evidence.DiscountBounds | crates/morpheus-client/src/types/evidence.rs:81-83 | Discounting a non-negative factor by a fraction keeps it between 0 and the factor. |
| Evidence.FreshBundleNeedsOneTag | crates/morpheus-client/src/types/evidence.rs:191-196 | A freshly built bundle never validates. After one tag is added, a bundle with a non-empty id always validates. |
| Evidence.EffectiveMarginExample | crates/morpheus-client/src/types/evidence.rs:199-202 | A bundle built with 0.9 and 0.1 has margin 0.81. |
| Policy.New | crates/morpheus-client/src/types/policy.rs:62-86 | A new profile has the default biomechanical policy (ceiling 0.25), the four default minimum rights and no constraints. It validates iff name and authority are non-empty. |
| Policy.AddNeurorightsConstraint | crates/morpheus-client/src/types/policy.rs:89-91 | Exactly one constraint is appended at the end; every other field is unchanged. |
| Policy.Validate | crates/morpheus-client/src/types/policy.rs:94-108 | Ok iff the profile is well formed. Each error is returned exactly when it is the first failing check, in the order: empty name, empty authority, ceiling outside [0,1], empty minimum rights. |
| Policy.FindConstraint | crates/morpheus-client/src/types/policy.rs:112-114 | None iff no constraint has the name. Otherwise the index of the first constraint with exactly that name. |
| Policy.IsConstraintEnforced | crates/morpheus-client/src/types/policy.rs:111-117 | True iff the first constraint with that exact name is enforced. False when no constraint has the name. |
| Policy.AddedConstraintIsFound | crates/morpheus-client/src/types/policy.rs:196-205 | After adding a constraint under a fresh name, asking for that name answers the constraint's own `enforced` flag. |
| Policy.EuNeurorights | crates/morpheus-client/src/types/policy.rs:123-141 | The EU preset has ceiling 0.20 and two enforced constraints, noSubconsciousTargeting then noInnerStateGovernance, and it validates. |
| Policy.EuConstraintsEnforced | crates/morpheus-client/src/types/policy.rs:189-193 | Asking the EU preset about either of its two constraint names answers true. |
| Policy.ChileNeurorights | crates/morpheus-client/src/types/policy.rs:144-162 | The Chile preset has ceiling 0.25 and two enforced constraints, mentalPrivacy then psych_integrity, and it validates. |
| Policy.PhoenixMedical | crates/morpheus-client/src/types/policy.rs:165-175 | The Phoenix preset has scope bounded-auto, risk class high, 120 minutes, the default ceiling and no constraints, and it validates. |
| Reconciliation.NewEngine | crates/morpheus-client/src/core/reconciliation.rs:59-70 | Fails with PolicyError iff the profile does not validate, carrying the profile's own error. On success the engine holds the profile, the BCI guard (c, 0.85·c) with 0 ≤ warn ≤ c ≤ 1, RoH ceiling 0.3 and the envelope guard switched on. |
| Reconciliation.SetPolicyProfile | crates/morpheus-client/src/core/reconciliation.rs:174-182 | An invalid profile gives Err and leaves the engine unchanged. A valid one replaces the profile and rebuilds the BCI guard as (c, 0.85·c). The RoH ceiling and the envelope flag never change, and engine consistency is preserved. |
| Reconciliation.SetPolicyProfileMatchesNew | crates/morpheus-client/src/core/reconciliation.rs:59-70 | On a consistent engine, swapping in a valid profile gives the same engine as building a new one from it. |
| Reconciliation.FirstProhibitive | crates/morpheus-client/src/core/reconciliation.rs:136-143 | None iff no constraint is both enforced and named with "Forbidden". Otherwise the name of the first such constraint. |
| Reconciliation.AuditRecordFor | crates/morpheus-client/src/core/reconciliation.rs:146-160 | The record carries the proposal's DID, corridor context, evidence bundle and neuromorphic decision, the profile name, outcome Allowed, and the current and proposed BCI and RoH values. |
| Reconciliation.EvaluateEvolution | crates/morpheus-client/src/core/reconciliation.rs:84-170 | Ok iff every step approves, and then the result is (Allowed, record) with a record that passes the monotonicity self-check. Each error kind holds exactly when its step is the first to fail: corridor, then evidence (with the bundle's own error), then BCI Forbid (GuardRejection), then RoH Forbid (MonotonicityViolation), then envelope Forbid when enabled (GuardRejection), then the first prohibitive constraint (PolicyError naming it), then a failed self-check (MonotonicityViolation). |
| Reconciliation.NonForbidDecisionsNeverBlock | crates/morpheus-client/src/core/reconciliation.rs:100-132 | When no guard forbids, no constraint is prohibitive and the self-check holds, the proposal is approved, whatever cautionary decisions the guards return. |
| Reconciliation.GateIgnoresRecordOnlyFields | crates/morpheus-client/src/core/reconciliation.rs:100-114 | Whether the checks before the audit pass does not depend on the DID, the neuromorphic decision or the current BCI. The BCI guard sees only the proposed value. |
| Reconciliation.HarmlessConstraintsNeverReject | crates/morpheus-client/src/core/reconciliation.rs:136-143 | Constraints that are unenforced, or whose names lack "Forbidden", never reject. |
| MicrospaceGuard.New | crates/morpheus-client/src/nanoswarm/microspace_guard.rs:31-54 | The built-in tables cover four organisms for density and occupancy and three ecosystem roles for power. Every ceiling lies in (0, 0.5], every power limit in (0, 10] and every occupancy limit in [1800, 14400]. |
| MicrospaceGuard.CeilingFor | crates/morpheus-client/src/nanoswarm/microspace_guard.rs:57-61 | A known category gets its table entry; an unknown one gets the fallback. |
| MicrospaceGuard.DurationSoftLimit | crates/morpheus-client/src/nanoswarm/microspace_guard.rs:124 | The soft limit is the floor of 0.8·limit and never exceeds the limit. |
| MicrospaceGuard.EvaluateDensity | crates/morpheus-client/src/nanoswarm/microspace_guard.rs:56-78 | The percentage swarm/volume·100 is compared with the organism's ceiling (default 0.1). Forbid iff above the ceiling, DegradePrecision iff above 0.8·ceiling but not above the ceiling, AllowFull otherwise, never PauseAndRest. |
| MicrospaceGuard.EvaluateActivity | crates/morpheus-client/src/nanoswarm/microspace_guard.rs:80-106 | The draw is compared with the role's limit (default 1.0). Forbid iff above the limit, PauseAndRest iff above 0.7·limit but not above it, AllowFull otherwise, never DegradePrecision. |
| MicrospaceGuard.EvaluateDuration | crates/morpheus-client/src/nanoswarm/microspace_guard.rs:108-131 | The seconds are compared with the organism's limit (default 3600). Forbid iff above the limit, PauseAndRest iff above the integer floor of 0.8·limit but not above it, AllowFull otherwise, never DegradePrecision. |
| MicrospaceGuard.EvaluateSwarmProposal | crates/morpheus-client/src/nanoswarm/microspace_guard.rs:133-166 | Forbid iff some check forbids, and then it is the first in the order density, activity, duration. Otherwise density's DegradePrecision beats activity's PauseAndRest, which beats duration's. AllowFull iff all three allow. The verdict is never milder than any single check. |
| MicrospaceGuard.DensityMonotone | crates/morpheus-client/src/nanoswarm/microspace_guard.rs:63-77 | For the same organism, a higher density percentage never gets a milder decision. |
| MicrospaceGuard.ActivityMonotone | crates/morpheus-client/src/nanoswarm/microspace_guard.rs:91-105 | A higher draw never gets a milder decision. |
| MicrospaceGuard.DurationMonotone | crates/morpheus-client/src/nanoswarm/microspace_guard.rs:119-130 | A longer duration never gets a milder decision. |
| MicrospaceGuard.BuiltInTableExamples | crates/morpheus-client/src/nanoswarm/microspace_guard.rs:174-219 | With the built-in tables: 5 mW for flight_metabolic is Forbid, 10% soil density is Forbid, and 1% soil density is also Forbid. |
| HealthcareGovernance.When | crates/governance-healthcare/src/lib.rs:111-113 | A rule contributes its violation exactly when its condition holds, and at most once. |
| HealthcareGovernance.Identity | crates/governance-healthcare/src/lib.rs:110-116 | The identifier group reports exactly the broken identifier rules: model id or owner blank after trimming. |
| HealthcareGovernance.Oversight | crates/governance-healthcare/src/lib.rs:118-142 | The human-in-the-loop group reports exactly the broken oversight rule, at most one. |
| HealthcareGovernance.Consent | crates/governance-healthcare/src/lib.rs:144-166 | The consent group reports exactly the broken consent and FPIC rules. |
| HealthcareGovernance.Logging | crates/governance-healthcare/src/lib.rs:168-199 | The logging group reports exactly the broken logging rules of the policy's tier, at most three. |
| HealthcareGovernance.StrictLogging | crates/governance-healthcare/src/lib.rs:170-188 | At High or Critical, the three logging requirements (retention ≥ 7, tamper-evident storage, full traces) each independently add their own error. |
| HealthcareGovernance.Provenance | crates/governance-healthcare/src/lib.rs:201-220 | The provenance group reports exactly the broken provenance rules. Labelling is required only with biosignals; source/licence and consent/jurisdiction tags are always required. |
| HealthcareGovernance.GroupsOrdered | crates/governance-healthcare/src/lib.rs:107-220 | Within each rule group, violations appear in rule order. |
| HealthcareGovernance.AllErrors | crates/governance-healthcare/src/lib.rs:107-221 | The collected list holds exactly the broken rules, each once, in rule order, at most 11. |
| HealthcareGovernance.ValidateHealthcarePolicy | crates/governance-healthcare/src/lib.rs:107-225 | `ok` iff no errors. An error is listed iff its rule is broken. Errors appear in rule order with no repeats, at most 11. |
| HealthcareGovernance.IsOk | crates/governance-healthcare/src/lib.rs:98-100 | `is_ok` reports the result's `ok` flag. Its meaning is given by ValidateHealthcarePolicy, which sets the flag iff no error was collected. |
| HealthcareGovernance.PassesIffNoRuleBroken | crates/governance-healthcare/src/lib.rs:98-225 | A policy passes iff none of the thirteen rules is broken. |
| HealthcareGovernance.AutonomousOversightErrors | crates/governance-healthcare/src/lib.rs:119-142 | With the autonomous pattern, exactly one of the two oversight errors appears at Medium, High and Critical, and neither at Low. |
| HealthcareGovernance.OrderedUnique | crates/governance-healthcare/src/lib.rs:107-225 | Two rule-ordered lists with the same members are equal, so the report is determined by the set of broken rules. |
| HealthcareGovernance.SameRulesSameResult | crates/governance-healthcare/src/lib.rs:107-225 | Two policies that break the same rules get identical results. |
| HealthcareGovernance.SameRulesSameErrors | crates/governance-healthcare/src/lib.rs:107-225 | The collected list depends only on which rules are broken. |
| HealthcareGovernance.UseCaseIrrelevant | crates/governance-healthcare/src/lib.rs:107-225 | Changing the clinical use case never changes the result. |
| HealthcareGovernance.HighAndCriticalAgree | crates/governance-healthcare/src/lib.rs:119-188 | A policy gets the same result at High as at Critical. |
| HealthcareGovernance.PassingAtHighPassesBelow | crates/governance-healthcare/src/lib.rs:119-199 | A policy that passes at High also passes at Medium and at Low. |
| HealthcareGovernance.NoneBrokenMeansNoErrors | crates/governance-healthcare/src/lib.rs:119-199 | If no rule is broken at High, none is broken at a tier below High. |
| NeurorightsShell.AuthorizeOuterAction | neurorights-shell/src/lib.rs:78-88 | Outer actions are always authorised, whatever the inner hint or the request. |
| NeurorightsShell.CheckNeuralExport | neurorights-shell/src/lib.rs:91-100 | NeuralExportForbidden iff an export is attempted while the policy forbids export or the data is re-identifiable. |
| NeurorightsShell.CheckAugmentationCondition | neurorights-shell/src/lib.rs:103-111 | CoerciveUptake iff the service is essential and it requires augmentation. |
| NeurorightsShell.ReidentifiableNeverExported | neurorights-shell/src/lib.rs:96 | A re-identifiable export is refused under every policy. Not exporting is never refused. |
| NeurorightsShell.DefaultPolicyBehaviour | neurorights-shell/src/lib.rs:54-111 | Under the default policy every export attempt is refused and augmentation never is. Neither check consults the safety-only flag. |
| NeuromorphCore.EnforceNoReversal | crates/morpheus-neuromorph-core/src/lib.rs:96-112 | RightsViolation iff the disallow flag is set and the action is one of rollback, reverse, downgrade, revert, undo. |
| NeuromorphCore.FlagClearedAllowsAll | crates/morpheus-neuromorph-core/src/lib.rs:97-100 | With the flag cleared every action is allowed. |
| NeuromorphCore.MatchingIsExact | crates/morpheus-neuromorph-core/src/lib.rs:101-104 | Matching is exact and case-sensitive: "Rollback", "undo " and "rollbacks" pass the default context. |
| NeuromorphCore.DefaultContextRefusesReversals | crates/morpheus-neuromorph-core/src/lib.rs:17-44 | The default rights have the flag set, so the default context refuses each of the five words. |
| Governance.RequestDowngrade | crates/morpheus-googolswarm/morpheus-core/src/governance.rs:12-28 | Ok iff the ledger allows reversal and the conditions permit a downgrade. The ledger is checked first. On success the result is the current capability state with self-modification switched off and every other field kept. |
| Governance.DowngradeIdempotent | crates/morpheus-googolswarm/morpheus-core/src/governance.rs:26-28 | Downgrading an already downgraded state gives the same state again. |
| Governance.VerdictIgnoresCapabilityState | crates/morpheus-googolswarm/morpheus-core/src/governance.rs:16-25 | Whether a downgrade is granted does not depend on the current capability state. |
| Aln.ValuesOf | crates/morpheus-googolswarm/morpheus-spec-aln/src/aln.rs:25-29 | A value is in the result iff some property pairs it with the key. The result is never longer than the property list. |
| Aln.GetValues | crates/morpheus-googolswarm/morpheus-spec-aln/src/aln.rs:24-30 | Returns exactly the values stored under the key, never more than the document holds. |
| Aln.ValuesOfAppend | crates/morpheus-googolswarm/morpheus-spec-aln/src/aln.rs:25-29 | Document order is preserved: the values of a concatenation are those of the first part followed by those of the second. |
| Aln.ValuesOfSingle | crates/morpheus-googolswarm/morpheus-spec-aln/src/aln.rs:27-28 | A single property contributes its value iff its key matches. |
| Aln.CustomKeysCompareByName | crates/morpheus-googolswarm/morpheus-spec-aln/src/aln.rs:1-10 | Two custom keys match iff their names are equal. |
| AlnParser.KeyOf | crates/morpheus-googolswarm/morpheus-spec-aln/src/parser.rs:22-30 | The key's spelling is the trimmed text. It is Custom exactly when the text is not one of the six reserved names. |
| AlnParser.KeyOfKeyName | crates/morpheus-googolswarm/morpheus-spec-aln/src/parser.rs:22-30 | Parsing a key's own spelling gives that key back, unless it is a custom key spelled like a reserved name. |
| AlnParser.ParseLine | crates/morpheus-googolswarm/morpheus-spec-aln/src/parser.rs:17-32 | A line yields a property iff its trimmed form is not blank, does not start with '#' and contains '='. The value never starts or ends with a double quote. |
| AlnParser.ParseLineSplitsAtFirstEquals | crates/morpheus-googolswarm/morpheus-spec-aln/src/parser.rs:21-31 | The split is at the first '=': the key is the trimmed text before it and contains no '='. The value is the trimmed, quote-stripped text after it, which may contain '='. |
| AlnParser.ParseLines | crates/morpheus-googolswarm/morpheus-spec-aln/src/parser.rs:16-34 | At most one property per line, and every value is unquoted. |
| AlnParser.ParseAln | crates/morpheus-googolswarm/morpheus-spec-aln/src/parser.rs:14-36 | Never fails. The document has at most one property per input line, and no value starts or ends with a double quote. |
| AlnParser.ParseLinesSingle | crates/morpheus-googolswarm/morpheus-spec-aln/src/parser.rs:16-33 | One line contributes exactly the property it parses to, or nothing. |
| AlnParser.ParseLinesAppend | crates/morpheus-googolswarm/morpheus-spec-aln/src/parser.rs:16-32 | Properties appear in input line order: parsing a concatenation concatenates the results. |
| AlnParser.IgnoredLineContributesNothing | crates/morpheus-googolswarm/morpheus-spec-aln/src/parser.rs:18-21 | Inserting a blank line, a comment or a line without '=' anywhere leaves the document unchanged. |
| AlnParser.ParseRenderedLine | crates/morpheus-googolswarm/morpheus-spec-aln/src/parser.rs:17-32 | A property rendered as `KEY=value` parses back to itself. |
| AlnParser.ParseRenderedDocument | crates/morpheus-googolswarm/morpheus-spec-aln/src/parser.rs:14-36 | A document of renderable properties, written one per line, parses back to itself. |
| AlnParser.LinesOfRenderedDocument | crates/morpheus-googolswarm/morpheus-spec-aln/src/parser.rs:16 | Splitting a rendered document into lines gives back the rendered properties, one per line. |
| Text.TrimBy | crates/morpheus-googolswarm/morpheus-spec-aln/src/parser.rs:31 | The result is a middle slice of the input. Everything cut from either end matches the predicate, and the result neither starts nor ends with a matching character. |
| Text.Trim | crates/morpheus-googolswarm/morpheus-spec-aln/src/parser.rs:17 | The result is the input with exactly its leading and trailing Unicode whitespace removed. |
| Text.BlankIffTrimEmpty | crates/governance-healthcare/src/lib.rs:111-114 | A string trims to empty iff every character is whitespace. |
| Text.SplitOnce | crates/morpheus-googolswarm/morpheus-spec-aln/src/parser.rs:21 | None iff the separator is absent. Otherwise the parts around its first occurrence, which rejoin to the input. |
| Text.JoinSplitNewlines | crates/morpheus-googolswarm/morpheus-spec-aln/src/parser.rs:16 | Joining the newline-separated pieces with newlines gives back the input. |
| Text.SplitJoinNewlines | crates/morpheus-googolswarm/morpheus-spec-aln/src/parser.rs:16 | Splitting a newline-joined list of newline-free pieces gives the pieces back. |
| Text.Lines | crates/morpheus-googolswarm/morpheus-spec-aln/src/parser.rs:16 | `lines` yields one line per newline-separated piece, minus a final empty piece. No line holds a newline. Each line before the last piece is its piece with its trailing '\r' removed exactly when the piece ends in '\r'; a non-empty last piece is kept as it is, '\r' included. |
| Text.LinesOfJoin | crates/morpheus-googolswarm/morpheus-spec-aln/src/parser.rs:16 | `lines` of newline-joined pieces returns the pieces when none is newline-bearing or ends in '\r' and the last is non-empty. |
| IntakeOptimizer.Window | crates/cybo-intake-scheduler/src/optimizer.rs:23-68 | The plan for window i spans from the hour of point i to the hour of point i+1. |
| IntakeOptimizer.Optimize | crates/cybo-intake-scheduler/src/optimizer.rs:14-82 | None whenever the state is outside the viability envelope. Inside it, Some iff the series has at least two points. The chosen plan is the window with the highest combined score, and the earliest one on ties. |
| IntakeOptimizer.FirstBestUnique | crates/cybo-intake-scheduler/src/optimizer.rs:70-79 | At most one window is the first best, so the choice is determined. |
| ScheduleRanking.FindBasin | crates/nitrate-mar-planner/src/scheduler.rs:14 | None iff no basin has the id. Otherwise the first basin with that id. |
| ScheduleRanking.Score | crates/nitrate-mar-planner/src/scheduler.rs:25-33 | The ranked entry copies the basin id and the option's hours. Its two ratios are k_n divided by max(energy, 1.0) and by max(area, 0.1). |
| ScheduleRanking.RankOne | crates/nitrate-mar-planner/src/scheduler.rs:13-34 | An option yields an entry iff its basin exists. |
| ScheduleRanking.CollectSingle | crates/nitrate-mar-planner/src/scheduler.rs:13-34 | An option with no matching basin is dropped; one with a match yields exactly its scored entry. |
| ScheduleRanking.CollectAppend | crates/nitrate-mar-planner/src/scheduler.rs:13 | Entries are collected in option order. |
| ScheduleRanking.Insert | crates/nitrate-mar-planner/src/scheduler.rs:36 | Insertion adds exactly the one element. |
| ScheduleRanking.InsertSorted | crates/nitrate-mar-planner/src/scheduler.rs:36 | Inserting into a list sorted by descending ratio keeps it sorted. |
| ScheduleRanking.SortDesc | crates/nitrate-mar-planner/src/scheduler.rs:36 | The result is sorted by non-increasing ratio and is a permutation of the input. |
| ScheduleRanking.InsertStable | crates/nitrate-mar-planner/src/scheduler.rs:36 | Insertion places the new element before every existing element with an equal ratio. |
| ScheduleRanking.SortStable | crates/nitrate-mar-planner/src/scheduler.rs:36 | The sort is stable: entries with equal ratios keep their input order. |
| ScheduleRanking.RankSchedules | crates/nitrate-mar-planner/src/scheduler.rs:7-38 | The output is sorted by non-increasing ratio and is a permutation of the entries collected with one shared kernel value. For every ratio, the entries with that ratio keep their collected order (the sort is stable). |
| PhoenixGrouping.Members | crates/phoenix-bridge/src/main.rs:84-88 | A key's group holds only samples of that key, drawn from the input. It is empty iff the key does not occur. |
| PhoenixGrouping.AddSample | crates/phoenix-bridge/src/main.rs:85-87 | Adding a sample touches only the entry of its own key, creating it if needed. |
| PhoenixGrouping.GroupStep | crates/phoenix-bridge/src/main.rs:84-88 | Adding the next sample keeps the map equal to the grouping of the prefix seen so far. |
| PhoenixGrouping.GroupByNodeAndContaminant | crates/phoenix-bridge/src/main.rs:80-90 | The key set is exactly the set of (node, contaminant) pairs in the input, so no group is empty. Each group is the input's samples with that key, in input order. |
| PhoenixGrouping.SampleInItsOwnGroup | crates/phoenix-bridge/src/main.rs:84-88 | Every sample lands in the group of its own key and in no other. |
| PhoenixGrouping.MembersSnoc | crates/phoenix-bridge/src/main.rs:87 | A new sample is appended at the end of its group, so input order is kept. |
| PhoenixGrouping.GroupSizesSum | crates/phoenix-bridge/src/main.rs:84-88 | Summed over the distinct keys, the group sizes equal the input length. |
| ScoreBand.BandForScore | crates/econet-dashboard/src/storage.rs:37-45 | The band is one of 0.1, 0.5, 0.9: 0.1 iff below 0.3, 0.5 iff in [0.3, 0.7), 0.9 iff at least 0.7. |
| ScoreBand.BandMonotone | crates/econet-dashboard/src/storage.rs:37-45 | A higher score never gets a lower band. |
| ScoreBand.BoundariesGoUp | crates/econet-dashboard/src/storage.rs:38-40 | The thresholds belong to the upper band: 0.3 gives 0.5 and 0.7 gives 0.9. |
| Viability.IsWithinEnvelope | crates/cpvm-kernel/src/viability.rs:13-17 | A state is viable iff load ≤ 1.0, vibration ≤ 1.0 and 0.0 ≤ temperature ≤ 60.0. This predicate is the definition; EachBoundMatters, EnvelopeEdges, CalmerStaysViable and EnvelopeConvex state its consequences. |
| Viability.EachBoundMatters | crates/cpvm-kernel/src/viability.rs:13-17 | Breaking any one bound leaves the envelope, and meeting all of them is inside. |
| Viability.EnvelopeEdges | crates/cpvm-kernel/src/viability.rs:14-16 | Load and vibration have no lower bound, and both temperature endpoints are inside. |
| Viability.CalmerStaysViable | crates/cpvm-kernel/src/viability.rs:14-15 | Lowering load or vibration at the same temperature keeps a viable state viable. |
| Viability.EnvelopeConvex | crates/cpvm-kernel/src/viability.rs:13-17 | Every state between two viable states is viable. |
| Lyapunov.FromState | crates/cpvm-kernel/src/lyapunov.rs:9-12 | The residual is never negative. |
| Lyapunov.ResidualZeroIffNoDeviation | crates/cpvm-kernel/src/lyapunov.rs:9-12 | The residual is zero exactly at zero deviation. |
| Lyapunov.FromStateSymmetric | crates/cpvm-kernel/src/lyapunov.rs:9-12 | A deviation and its negation give the same residual. |
| Lyapunov.Decreasing | crates/cpvm-kernel/src/lyapunov.rs:14-16 | A step is decreasing iff the next residual is no larger than the current one. This predicate is the definition; DecreasingIffCloser characterises it on residuals built from deviations. |
| Lyapunov.DecreasingReflexive | crates/cpvm-kernel/src/lyapunov.rs:14-16 | Every residual is decreasing relative to itself. |
| Lyapunov.DecreasingTransitive | crates/cpvm-kernel/src/lyapunov.rs:14-16 | Two decreasing steps in a row make a decreasing step. |
| Lyapunov.DecreasingIffCloser | crates/cpvm-kernel/src/lyapunov.rs:9-16 | Moving from deviation a to deviation b is decreasing iff abs(b) ≤ abs(a). |

## Left out

- Reconciliation guards, corridor validator and audit record: their types live in files that are not part of this model (`types/guards.rs`, `types/corridor.rs`, `types/audit.rs`). The BCI, RoH and envelope guards, the corridor validation and the record's `respects_monotonicity` are parameters (`Collaborators`), so no threshold of theirs is modelled. The engine's `Arc` is a plain value, and logging calls are left out.
- Reconciliation.EvaluateEvolution: the unit test in reconciliation.rs that builds an evidence bundle without tags and expects approval is not encoded. `EvidenceBundle::validate` rejects such a bundle, and the model follows the code.
- MicrospaceGuard.EvaluateDensity: compares the ×100 percentage with the organism's ceiling, which the source documents as a percentage (soil 0.5%). The module's own test expects a 1% soil density to pass that 0.5% ceiling, but the code forbids it (`BuiltInTableExamples`). The model follows the code. It requires a non-zero volume because division by zero yields IEEE infinity or NaN, which reals do not have.
- MicrospaceGuard.EvaluateSwarmProposal: inherits the non-zero volume requirement of `EvaluateDensity`. Over a zero volume Rust forbids a positive swarm (infinity exceeds every ceiling) and lets a zero or negative swarm through to AllowFull (NaN or negative infinity), and reals cannot express either value.
- MicrospaceGuard.EvaluateDuration: models `(limit as f64 * 0.8) as u64` as the integer floor of 8·limit/10, leaving out f64 rounding for very large limits.
- Floating point: every `f64` is a `real`. NaN, infinities, `clamp` on NaN and rounding (for example whether 0.9·0.9 is exactly 0.81 in f64) are left out.
- ScheduleRanking.RankSchedules: the `partial_cmp().unwrap()` panic on NaN is left out. The sort is modelled as a stable insertion sort, which gives the same order as Rust's stable `sort_by`. The `anyhow::Result` wrapper is always `Ok` and is dropped.
- IntakeOptimizer.Optimize: the `anyhow::Result` wrapper is always `Ok` and is dropped. The series point type is declared in a file that is not part of this model, so only the fields the optimizer reads are kept.
- CEIM kernel: `CeimKernel::compute` and the `mass_load` integration are numeric and depend on regulatory limits outside this model. The kernel is an uninterpreted function (`Ceim.Kernel`), and the fixed limits the callers pass are not represented.
- PhoenixGrouping.GroupByNodeAndContaminant: the HashMap's iteration order is not modelled, because a `map` has none. The sample timestamp is dropped. The async `tick`, the feed fetch, shard writing and configuration loading are I/O.
- Timestamps: `created_at` and `effective_date` come from the clock and are dropped.
- Integer widths: the `u8` log retention is the subtype `Byte` of integers in [0, 256). `u32` and `u64` values are unbounded naturals. None of the modelled operations does arithmetic that could overflow, except the duration soft limit noted above.
- AlnParser: `ParsedError` is declared in a file outside this model; it is a placeholder, since `parse_aln` never fails. `to_governance_profile` is left out because it depends on model types and clock calls outside this model.
- Text.IsWhitespace is Unicode's White_Space property as Rust's `char::is_whitespace` uses it. There is no normalisation.
- NeuromorphCore: provider configuration, endpoint registry, security profile, compliance and signing are left out. Only the rights and discipline flags and `enforce_no_reversal` are modelled.
- Governance: the rights ledger entry and the reversal conditions are declared in files outside this model. Their permission checks `is_reversal_allowed` and `permits_downgrade` are parameters.
- Messages: error and decision messages are opaque tags. The exception is the name of a violated neurorights constraint, which the error keeps.
- Out of scope: the registry, orchestrator CLI, dashboard I/O and Java bootstrap code.
