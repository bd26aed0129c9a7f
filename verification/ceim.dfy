/**
 * The pieces of the CEIM kernel (crates/ceim-kernel/src/ceim.rs) the
 * schedulers depend on. `CeimKernel::compute` integrates a mass load against
 * regulatory limits declared elsewhere; it is left uninterpreted, as a
 * function from contaminant, weight and samples to the node's `k_n`.
 */
module Ceim {
  datatype TimeSample = TimeSample(tHours: real, cIn: real, cOut: real, flowQ: real)

  /** `|contaminant, omega, samples| CeimKernel::compute(contaminant, omega, samples, &limits).k_n` for fixed limits. */
  type Kernel = (string, real, seq<TimeSample>) -> real
}
