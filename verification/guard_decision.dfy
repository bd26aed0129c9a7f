/**
 * The graded outcome of one guard. The type lives in a file of the
 * morpheus-client crate that is not part of this model; its four variants are
 * the ones every guard of the core matches on. Reasons are opaque tags.
 */
module GuardDecisions {

  datatype GuardDecision =
    | AllowFull
    | DegradePrecision(reason: string)
    | PauseAndRest(reason: string)
    | Forbid(reason: string)

  /**
   * Precedence rank: AllowFull below the two cautionary decisions, which are
   * peers, below Forbid.
   */
  function Severity(d: GuardDecision): (rank: nat)
    ensures rank <= 2
    ensures rank == 0 <==> d.AllowFull?
    ensures rank == 2 <==> d.Forbid?
  {
    match d
    case AllowFull => 0
    case DegradePrecision(_) => 1
    case PauseAndRest(_) => 1
    case Forbid(_) => 2
  }
}
