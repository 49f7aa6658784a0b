/** The per-job cost breaker shared by both generation loops. Amounts are exact reals. */
module CostCap {
  type Cost = r: real | r >= 0.0

  const JOB_COST_CAP_MULTIPLIER := 1.5
  const JOB_COST_CAP_MIN_USD := 0.1

  /** A job without a positive estimate has no cap, and small amounts never trip it. */
  predicate ExceedsJobCostCap(estimate: real, running: real) {
    estimate > 0.0 && running > JOB_COST_CAP_MIN_USD && running > estimate * JOB_COST_CAP_MULTIPLIER
  }

  function Ceiling(estimate: real): (c: real)
    ensures c >= 0.1 && c >= 1.5 * estimate && (c == 0.1 || c == 1.5 * estimate)
  {
    if estimate * JOB_COST_CAP_MULTIPLIER > JOB_COST_CAP_MIN_USD then estimate * JOB_COST_CAP_MULTIPLIER
    else JOB_COST_CAP_MIN_USD
  }

  /**
    With a positive estimate the breaker trips exactly above the larger of 0.1 and one and a half times the estimate;
    without one it never does.
   */
  lemma TripsAboveTheCeiling(estimate: real, running: real)
    ensures estimate > 0.0 ==> (ExceedsJobCostCap(estimate, running) <==> running > Ceiling(estimate))
    ensures estimate <= 0.0 ==> !ExceedsJobCostCap(estimate, running)
  {
  }
}
