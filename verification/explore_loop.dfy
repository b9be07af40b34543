/** exploreCollocation: the trust-region loop of the exploration planner over the
    subproblem data of module Explore. The loop keeps the convexification of the last
    accepted trajectory and recomputes it only after a trajectory has been adopted. */
module ExploreLoop {
  import opened Common
  import opened TrustRegion
  import opened Explore

  /** The subproblem solved around (X, U): the convexification cv and the trust-box
      bounds of half-widths xeps and ueps. */
  function BuildQP(m: ExploreModel, cv: Convexification, X: seq<Vec>, U: seq<Vec>, xeps: real, ueps: real): (qp: QP)
    requires m.dims.Shaped(X, U)
    ensures |qp.lb| == |qp.ub| == m.dims.T
    ensures forall t :: 0 <= t < m.dims.T ==> |qp.lb[t]| == |qp.ub[t]| == m.dims.Size(t)
  {
    var d := m.dims;
    QP(H := cv.H, f := cv.f,
       lb := seq(d.T, t requires 0 <= t < d.T => StageLower(d, m.limits, X, U, t, xeps, ueps)),
       ub := seq(d.T, t requires 0 <= t < d.T => StageUpper(d, m.limits, X, U, t, xeps, ueps)),
       c := cv.c)
  }

  /** Xopt: the first N*X_DIM entries of every stage of the solution. */
  function ExtractX(d: Dims, z: seq<Vec>): (X: seq<Vec>)
    ensures |X| == d.T
    ensures forall t :: 0 <= t < |X| ==> |X[t]| == d.SX()
    ensures forall t, i :: 0 <= t < |X| && 0 <= i < d.SX() ==> X[t][i] == At(StageOf(z, t), i)
  {
    seq(d.T, t requires 0 <= t => Tabulate(d.SX(), (i: nat) => At(StageOf(z, t), i)))
  }

  /** Uopt: the N*U_DIM entries after the states in every stage but the last. */
  function ExtractU(d: Dims, z: seq<Vec>): (U: seq<Vec>)
    requires d.T >= 1
    ensures |U| == d.T - 1
    ensures forall t :: 0 <= t < |U| ==> |U[t]| == d.SU()
    ensures forall t, i :: 0 <= t < |U| && 0 <= i < d.SU() ==> U[t][i] == At(StageOf(z, t), d.SX() + i)
  {
    seq(d.T - 1, t requires 0 <= t => Tabulate(d.SU(), (i: nat) => At(StageOf(z, t), d.SX() + i)))
  }

  /** A trajectory read back from any solution has the planner's shape. */
  lemma ExtractShaped(d: Dims, z: seq<Vec>)
    requires d.T >= 1
    ensures d.Shaped(ExtractX(d, z), ExtractU(d, z))
  {
  }

  /** What one solve produced: the decision and the candidate trajectory. */
  datatype Step = Step(decision: Decision, X: seq<Vec>, U: seq<Vec>)

  /** One iteration at (X, U) with half-widths xeps and ueps: the candidate read back
      from the solution and the decision taken on it, or None when the solver's exit
      flag is not 1. The model's merit is the solver's objective plus the dropped
      constant, the true merit is the entropy of the candidate. */
  function Trial(m: ExploreModel, X: seq<Vec>, U: seq<Vec>, xeps: real, ueps: real): (step: Option<Step>)
    requires m.Valid() && m.dims.Shaped(X, U)
    ensures step.Some? ==> m.dims.Shaped(step.value.X, step.value.U)
  {
    var cv := Convexify(m, X, U);
    match m.solve(BuildQP(m, cv, X, U, xeps, ueps))
    case None => None
    case Some(sol) =>
      ExtractShaped(m.dims, sol.z);
      var Xopt, Uopt := ExtractX(m.dims, sol.z), ExtractU(m.dims, sol.z);
      var modelMerit := sol.pobj + cv.constantCost;
      Some(Step(Decide(cv.merit - modelMerit, cv.merit - m.entropy(Xopt, Uopt), MinApproxImprove), Xopt, Uopt))
  }

  /** A trial that expands the box offers a candidate whose entropy is lower by at least
      improve_ratio_threshold * min_approx_improve. */
  lemma TrialExpandImproves(m: ExploreModel, X: seq<Vec>, U: seq<Vec>, xeps: real, ueps: real)
    requires m.Valid() && m.dims.Shaped(X, U)
    requires Trial(m, X, U, xeps, ueps).Some? && Trial(m, X, U, xeps, ueps).value.decision == Expand
    ensures var t := Trial(m, X, U, xeps, ueps).value;
            m.entropy(t.X, t.U) <= m.entropy(X, U) - ImproveRatioThreshold * MinApproxImprove
  {
    var cv := Convexify(m, X, U);
    var sol := m.solve(BuildQP(m, cv, X, U, xeps, ueps)).value;
    ExpandImproves(cv.merit - (sol.pobj + cv.constantCost),
                   cv.merit - m.entropy(ExtractX(m.dims, sol.z), ExtractU(m.dims, sol.z)), MinApproxImprove);
  }

  /** One iteration up to the decision, with the convexification cv of (X, U) in hand:
      set the bounds, solve, read back the candidate and compare merits. */
  method ExploreStep(m: ExploreModel, cv: Convexification, X: seq<Vec>, U: seq<Vec>, xeps: real, ueps: real)
    returns (step: Option<Step>)
    requires m.Valid() && m.dims.Shaped(X, U) && cv == Convexify(m, X, U)
    ensures step == Trial(m, X, U, xeps, ueps)
    ensures step.Some? && step.value.decision == Expand ==>
              m.entropy(step.value.X, step.value.U) <= m.entropy(X, U) - ImproveRatioThreshold * MinApproxImprove
  {
    var qp := BuildQP(m, cv, X, U, xeps, ueps);
    var sol := m.solve(qp);
    if sol.None? {
      return None;
    }
    var Xopt, Uopt := ExtractX(m.dims, sol.value.z), ExtractU(m.dims, sol.value.z);
    ExtractShaped(m.dims, sol.value.z);
    var modelMerit := sol.value.pobj + cv.constantCost;
    var newMerit := m.entropy(Xopt, Uopt);
    var approxImprove, exactImprove := cv.merit - modelMerit, cv.merit - newMerit;
    var decision := Decide(approxImprove, exactImprove, MinApproxImprove);
    if decision == Expand {
      ExpandImproves(approxImprove, exactImprove, MinApproxImprove);
    }
    step := Some(Step(decision, Xopt, Uopt));
  }

  /** Where the loop stands: the current trajectory and the common half-width of the
      state and control boxes (Xeps and Ueps start equal and are always scaled
      together). */
  datatype TrustState = TrustState(X: seq<Vec>, U: seq<Vec>, eps: real)

  /** Where the loop goes on from after the trial t at s. Fail keeps trajectory and
      box; Converge adopts the candidate; Shrink keeps the trajectory in a box half as
      wide; Expand adopts the candidate in a box half as wide again. */
  function Advance(s: TrustState, t: Step): (s': TrustState)
    ensures t.decision == Fail || t.decision == Shrink ==> s'.X == s.X && s'.U == s.U
    ensures t.decision == Converge || t.decision == Expand ==> s'.X == t.X && s'.U == t.U
    ensures s'.eps == Resize(t.decision, s.eps)
  {
    match t.decision
    case Fail => s
    case Converge => TrustState(t.X, t.U, s.eps)
    case Shrink => TrustState(s.X, s.U, s.eps * TrustShrinkRatio)
    case Expand => TrustState(t.X, t.U, s.eps * TrustExpandRatio)
  }

  /** How exploreCollocation ended. */
  datatype Ending =
    | Failure      // the convex model predicted a worse merit: INFTY is returned
    | Converged    // predicted improvement below min_approx_improve
    | OutOfIters   // max_iter iterations without convergence
    | Exited       // the solver failed and the process exits

  /** Where a run of the loop ends and how. */
  datatype ExploreOutcome = ExploreOutcome(last: TrustState, ending: Ending)

  /** The control flow of the loop for any trial function, run from s for at most
      iters more iterations: a failing solver exits, a Fail verdict fails at once with
      the trajectory in hand, a Converge adopts the candidate and stops, and Shrink and
      Expand go on from the advanced state. */
  function Loop(trial: TrustState -> Option<Step>, s: TrustState, iters: nat): (o: ExploreOutcome)
    decreases iters
  {
    if iters == 0 then ExploreOutcome(s, OutOfIters)
    else match trial(s)
      case None => ExploreOutcome(s, Exited)
      case Some(t) =>
        if t.decision == Fail then ExploreOutcome(s, Failure)
        else if t.decision == Converge then ExploreOutcome(Advance(s, t), Converged)
        else Loop(trial, Advance(s, t), iters - 1)
  }

  /** How many steps a run of Loop accepts (Expand) before it ends: at most one per
      iteration. */
  function LoopAccepted(trial: TrustState -> Option<Step>, s: TrustState, iters: nat): (n: nat)
    ensures n <= iters
    decreases iters
  {
    if iters == 0 then 0
    else match trial(s)
      case None => 0
      case Some(t) =>
        if t.decision == Fail || t.decision == Converge then 0
        else (if t.decision == Expand then 1 else 0) + LoopAccepted(trial, Advance(s, t), iters - 1)
  }

  /** Along a run of Loop, a value that no Shrink raises and that every Expand lowers
      by at least improve_ratio_threshold * min_approx_improve ends, unless the run
      converged, that much per accepted step below where it started. */
  lemma {:induction false} LoopLowers(trial: TrustState -> Option<Step>, value: TrustState -> real, s: TrustState, iters: nat)
    requires forall s' :: trial(s').Some? && trial(s').value.decision == Shrink ==> value(Advance(s', trial(s').value)) <= value(s')
    requires forall s' :: trial(s').Some? && trial(s').value.decision == Expand ==>
               value(Advance(s', trial(s').value)) <= value(s') - ImproveRatioThreshold * MinApproxImprove
    ensures Loop(trial, s, iters).ending != Converged ==>
              value(Loop(trial, s, iters).last) <= value(s) - ImproveRatioThreshold * MinApproxImprove * LoopAccepted(trial, s, iters) as real
    decreases iters
  {
    if iters > 0 && trial(s).Some? {
      var t := trial(s).value;
      if t.decision == Shrink || t.decision == Expand {
        var s', k := Advance(s, t), if t.decision == Expand then 1 else 0;
        var o, rest := Loop(trial, s', iters - 1), LoopAccepted(trial, s', iters - 1);
        assert Loop(trial, s, iters) == o && LoopAccepted(trial, s, iters) == k + rest;
        LoopLowers(trial, value, s', iters - 1);
        if o.ending != Converged {
          ChainDecrease(value(s), value(s'), value(o.last), ImproveRatioThreshold * MinApproxImprove, k, rest);
        }
      }
    }
  }

  /** The trial exploreCollocation makes at s (None off the planner's shapes, where
      the loop never goes). */
  function TrialAt(m: ExploreModel): TrustState -> Option<Step>
  {
    (s: TrustState) => if m.Valid() && m.dims.Shaped(s.X, s.U) then Trial(m, s.X, s.U, s.eps, s.eps) else None
  }

  /** The trajectory a run ends with has the planner's shape. */
  lemma {:induction false} LoopShaped(m: ExploreModel, s: TrustState, iters: nat)
    requires m.Valid() && m.dims.Shaped(s.X, s.U)
    ensures m.dims.Shaped(Loop(TrialAt(m), s, iters).last.X, Loop(TrialAt(m), s, iters).last.U)
    decreases iters
  {
    if iters > 0 && TrialAt(m)(s).Some? {
      var t := TrialAt(m)(s).value;
      if t.decision != Fail {
        LoopShaped(m, Advance(s, t), iters - 1);
      }
    }
  }

  /** exploreCollocation's loop run from s for at most iters more iterations. */
  function Run(m: ExploreModel, s: TrustState, iters: nat): (o: ExploreOutcome)
    requires m.Valid() && m.dims.Shaped(s.X, s.U)
    ensures m.dims.Shaped(o.last.X, o.last.U)
  {
    LoopShaped(m, s, iters);
    Loop(TrialAt(m), s, iters)
  }

  /** How many steps that run accepts. */
  function Accepted(m: ExploreModel, s: TrustState, iters: nat): (n: nat)
    ensures n <= iters
  {
    LoopAccepted(TrialAt(m), s, iters)
  }

  /** The loop's first iteration, on the trial t at s: Fail ends in failure where the
      loop stands, Converge ends at the advanced state, and otherwise the loop goes on
      from the advanced state with one iteration fewer. */
  lemma RunStep(m: ExploreModel, s: TrustState, iters: nat, t: Step)
    requires m.Valid() && m.dims.Shaped(s.X, s.U) && iters > 0 && Trial(m, s.X, s.U, s.eps, s.eps) == Some(t)
    ensures m.dims.Shaped(Advance(s, t).X, Advance(s, t).U)
    ensures Run(m, s, iters) ==
              if t.decision == Fail then ExploreOutcome(s, Failure)
              else if t.decision == Converge then ExploreOutcome(Advance(s, t), Converged)
              else Run(m, Advance(s, t), iters - 1)
    ensures Accepted(m, s, iters) ==
              if t.decision == Fail || t.decision == Converge then 0
              else (if t.decision == Expand then 1 else 0) + Accepted(m, Advance(s, t), iters - 1)
  {
    assert TrialAt(m)(s) == Some(t);
  }

  /** No trial of exploreCollocation that shrinks raises the entropy, and one that
      expands lowers it by at least improve_ratio_threshold * min_approx_improve. */
  lemma TrialAtLowers(m: ExploreModel)
    ensures forall s :: TrialAt(m)(s).Some? && TrialAt(m)(s).value.decision == Shrink ==>
              m.entropy(Advance(s, TrialAt(m)(s).value).X, Advance(s, TrialAt(m)(s).value).U) <= m.entropy(s.X, s.U)
    ensures forall s :: TrialAt(m)(s).Some? && TrialAt(m)(s).value.decision == Expand ==>
              m.entropy(Advance(s, TrialAt(m)(s).value).X, Advance(s, TrialAt(m)(s).value).U)
                <= m.entropy(s.X, s.U) - ImproveRatioThreshold * MinApproxImprove
  {
    forall s | TrialAt(m)(s).Some? && TrialAt(m)(s).value.decision == Expand
      ensures m.entropy(TrialAt(m)(s).value.X, TrialAt(m)(s).value.U) <= m.entropy(s.X, s.U) - ImproveRatioThreshold * MinApproxImprove
    {
      TrialExpandImproves(m, s.X, s.U, s.eps, s.eps);
    }
  }

  /** Unless the loop converged, the trajectory it ends with has an entropy lower than
      the one it started from by at least improve_ratio_threshold * min_approx_improve
      per accepted step. */
  lemma RunLowersEntropy(m: ExploreModel, s: TrustState, iters: nat)
    requires m.Valid() && m.dims.Shaped(s.X, s.U)
    ensures Run(m, s, iters).ending != Converged ==>
              m.entropy(Run(m, s, iters).last.X, Run(m, s, iters).last.U)
                <= m.entropy(s.X, s.U) - ImproveRatioThreshold * MinApproxImprove * Accepted(m, s, iters) as real
  {
    TrialAtLowers(m);
    LoopLowers(TrialAt(m), (s': TrustState) => m.entropy(s'.X, s'.U), s, iters);
  }

  /** The value exploreCollocation returns for an outcome: INFTY after a failure, the
      entropy of the final trajectory after convergence or max_iter iterations, and
      nothing when the solver failed. */
  function Returned(m: ExploreModel, o: ExploreOutcome): (r: Option<real>)
    requires m.dims.Shaped(o.last.X, o.last.U)
  {
    match o.ending
    case Failure => Some(m.infty)
    case Exited => None
    case _ => Some(m.entropy(o.last.X, o.last.U))
  }

  /** The loop from Xeps = Ueps = 0.5 for at most 100 iterations; INFTY is returned
      after a failure, the entropy of the final trajectory otherwise. */
  method ExploreCollocation(m: ExploreModel, X0: seq<Vec>, U0: seq<Vec>)
    returns (X: seq<Vec>, U: seq<Vec>, r: Option<real>, ending: Ending)
    requires m.Valid() && m.dims.Shaped(X0, U0)
    ensures var o := Run(m, TrustState(X0, U0, InitialTrustBoxSize), MaxIter);
            X == o.last.X && U == o.last.U && ending == o.ending && r == Returned(m, o)
  {
    var eps;
    X, U, eps, ending := Iterate(m, X0, U0, InitialTrustBoxSize, MaxIter);
    match ending {
      case Failure => r := Some(m.infty);
      case Exited => r := None;
      case _ =>
        var entropy := m.entropy(X, U);
        r := Some(entropy);
    }
  }

  /** At most iters passes of the loop from (X0, U0) with Xeps = Ueps = eps0,
      relinearizing only after a trajectory has been adopted. */
  method Iterate(m: ExploreModel, X0: seq<Vec>, U0: seq<Vec>, eps0: real, iters: nat)
    returns (X: seq<Vec>, U: seq<Vec>, eps: real, ending: Ending)
    requires m.Valid() && m.dims.Shaped(X0, U0)
    ensures Run(m, TrustState(X0, U0, eps0), iters) == ExploreOutcome(TrustState(X, U, eps), ending)
  {
    X, U, eps := X0, U0, eps0;
    var solutionAccepted := true;
    var cv := Convexify(m, X, U);
    ghost var goal := Run(m, TrustState(X0, U0, eps0), iters);
    ghost var left := iters;
    for it := 0 to iters
      invariant m.dims.Shaped(X, U) && left == iters - it
      invariant !solutionAccepted ==> cv == Convexify(m, X, U)
      invariant Run(m, TrustState(X, U, eps), left) == goal
    {
      if solutionAccepted {
        cv := Convexify(m, X, U);
      }
      var stop;
      X, U, eps, solutionAccepted, stop, left := Iteration(m, cv, X, U, eps, left, goal);
      if stop.Some? {
        return X, U, eps, stop.value;
      }
    }
    ending := OutOfIters;
  }

  /** The body of the loop at (X0, U0) with Xeps = Ueps = eps0 and the convexification
      cv of (X0, U0): solve, decide, and either end the loop (Some ending) or go on from
      the new state with one iteration fewer. A trajectory is adopted (accepted) on
      Converge and Expand; after Shrink the convexification stays valid. */
  method Iteration(m: ExploreModel, cv: Convexification, X0: seq<Vec>, U0: seq<Vec>, eps0: real, ghost iters: nat,
                   ghost goal: ExploreOutcome)
    returns (X: seq<Vec>, U: seq<Vec>, eps: real, accepted: bool, stop: Option<Ending>, ghost left: nat)
    requires m.Valid() && m.dims.Shaped(X0, U0) && cv == Convexify(m, X0, U0) && iters > 0
    requires Run(m, TrustState(X0, U0, eps0), iters) == goal
    ensures m.dims.Shaped(X, U) && (!accepted ==> X == X0 && U == U0) && left == iters - 1
    ensures stop.Some? ==> goal == ExploreOutcome(TrustState(X, U, eps), stop.value)
    ensures stop.None? ==> Run(m, TrustState(X, U, eps), left) == goal
  {
    left := iters - 1;
    var xeps, ueps := eps0, eps0;
    var step := ExploreStep(m, cv, X0, U0, xeps, ueps);
    if step.None? {
      return X0, U0, eps0, false, Some(Exited), left;
    }
    ghost var here := TrustState(X0, U0, eps0);
    RunStep(m, here, iters, step.value);
    var decision := step.value.decision;
    match decision {
      case Fail =>
        return X0, U0, eps0, false, Some(Failure), left;
      case Converge =>
        assert TrustState(step.value.X, step.value.U, eps0) == Advance(here, step.value);
        return step.value.X, step.value.U, eps0, true, Some(Converged), left;
      case Shrink =>
        xeps, ueps := Resize(decision, xeps), Resize(decision, ueps);
        assert TrustState(X0, U0, xeps) == Advance(here, step.value);
        return X0, U0, xeps, false, None, left;
      case Expand =>
        xeps, ueps := Resize(decision, xeps), Resize(decision, ueps);
        assert TrustState(step.value.X, step.value.U, xeps) == Advance(here, step.value);
        return step.value.X, step.value.U, xeps, true, None, left;
    }
  }
}
