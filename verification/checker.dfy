/**
 * The threshold validator of trade creation: a value passes when it reaches
 * the threshold, otherwise the outcome is a rejection naming the caller's
 * reason, the value and the threshold.
 */
module Checker {
  import opened Wrappers
  import opened Reasons

  function ValidateAtLeast(reason: Reason, value: real, threshold: real): (r: Outcome<Rejection>)
    ensures r.Pass? <==> value >= threshold
    ensures r.Fail? ==> r.error.reason == reason
    ensures r.Fail? ==> r.error == RejectedAt(reason, value, threshold)
  {
    if value >= threshold then Pass else Fail(RejectedAt(reason, value, threshold))
  }

  /** A value equal to its threshold passes. */
  lemma ValidateAtLeastAtBoundary(reason: Reason, value: real)
    ensures ValidateAtLeast(reason, value, value) == Pass
  {
  }

  /** Raising a passing value, or lowering the threshold, keeps it passing. */
  lemma ValidateAtLeastMonotone(reason: Reason, value: real, higher: real, threshold: real, lower: real)
    requires value <= higher && lower <= threshold
    requires ValidateAtLeast(reason, value, threshold).Pass?
    ensures ValidateAtLeast(reason, higher, lower).Pass?
  {
  }
}
