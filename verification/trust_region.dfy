/** The accept/reject rule shared by both SCP loops: the belief-space penalty loop and
    the exploration loop test the same three quantities in the same order and resize
    both trust-box half-widths by the same ratios; only the convergence threshold
    min_approx_improve differs (1e-3 for the belief loop, 1e-4 for exploration). */
module TrustRegion {

  datatype Decision =
    | Fail      // the convex model predicts the merit got worse
    | Converge  // predicted improvement negligible: adopt the candidate and stop
    | Shrink    // true improvement missing or poor: reject, shrink the box
    | Expand    // good step: adopt the candidate, grow the box

  /** approx_merit_improve below minus this is a convexification failure */
  const ApproxWorseTolerance: real := 0.00001
  const ImproveRatioThreshold: real := 0.1
  const TrustShrinkRatio: real := 0.5
  const TrustExpandRatio: real := 1.5

  /** The ordered test on approx_merit_improve, exact_merit_improve and their ratio.
      The ratio is only consulted once approx >= minApproxImprove > 0, so the source's
      unguarded division never divides by zero. */
  function Decide(approx: real, exact: real, minApproxImprove: real): (d: Decision)
    requires minApproxImprove > 0.0
    ensures d == Fail <==> approx < -ApproxWorseTolerance
    ensures d == Converge <==> -ApproxWorseTolerance <= approx < minApproxImprove
    ensures d == Shrink <==>
              minApproxImprove <= approx && (exact < 0.0 || exact < ImproveRatioThreshold * approx)
    ensures d == Expand <==>
              minApproxImprove <= approx && 0.0 <= exact && ImproveRatioThreshold * approx <= exact
  {
    if approx < -ApproxWorseTolerance then Fail
    else if approx < minApproxImprove then Converge
    else if exact < 0.0 || RatioBelow(exact, approx) then Shrink
    else Expand
  }

  /** exact / approx < improve_ratio_threshold, for a positive approx */
  function RatioBelow(exact: real, approx: real): (b: bool)
    requires approx > 0.0
    ensures b <==> exact < ImproveRatioThreshold * approx
  {
    var ratio := exact / approx;
    assert exact == ratio * approx;
    ratio < ImproveRatioThreshold
  }

  /** The new half-width of either trust box after a decision. */
  function Resize(d: Decision, eps: real): (r: real)
    ensures d == Shrink ==> r == eps * TrustShrinkRatio
    ensures d == Expand ==> r == eps * TrustExpandRatio
    ensures d == Fail || d == Converge ==> r == eps
    ensures eps > 0.0 ==> r > 0.0
  {
    match d
    case Shrink => eps * TrustShrinkRatio
    case Expand => eps * TrustExpandRatio
    case _ => eps
  }

  /** An expanding step lowers the true merit by at least a tenth of the threshold. */
  lemma ExpandImproves(approx: real, exact: real, minApproxImprove: real)
    requires minApproxImprove > 0.0
    requires Decide(approx, exact, minApproxImprove) == Expand
    ensures exact >= ImproveRatioThreshold * minApproxImprove > 0.0
  {
  }

  /** A first stretch that lowers a merit by gain for each of its k accepted steps,
      followed by a rest that lowers it by gain for each of its own, lowers it by gain
      for each accepted step of the whole. */
  lemma ChainDecrease(start: real, next: real, last: real, gain: real, k: nat, rest: nat)
    requires next <= start - gain * k as real
    requires last <= next - gain * rest as real
    ensures last <= start - gain * (k + rest) as real
  {
    assert gain * (k + rest) as real == gain * k as real + gain * rest as real;
  }

}
