/** The belief-space SLAM planner's penalty SQP: a trajectory of beliefs B[0..T-1] and
    controls U[0..T-2] is improved by repeatedly solving a convex QP around it inside a
    trust box, with the belief dynamics enforced through an L1 penalty whose
    coefficient grows when the result still violates them. */
module SlamBelief {
  import opened Common
  import opened TrustRegion
  import opened SlamLayout

  const MinApproxImprove: real := 0.001
  const MinTrustBoxSize: real := 0.001
  const CntTolerance: real := 0.0001
  const PenaltyCoeffIncreaseRatio: real := 5.0
  const InitialPenaltyCoeff: real := 5.0
  const InitialTrustBoxSize: real := 1.0
  const MaxPenaltyCoeffIncreases: nat := 3

  /** The data of one convex subproblem, stage by stage (D[0] is never set: empty). */
  datatype QP = QP(H: seq<Vec>, f: seq<Vec>, lb: seq<Vec>, ub: seq<Vec>, C: seq<Vec>, D: seq<Vec>, e: seq<Vec>)

  /** The solver's primal variables per stage and its objective value info.pobj. */
  datatype Solution = Solution(z: seq<Vec>, pobj: real)

  /** The problem: dimensions, weights, limits and goal, and the routines the planner
      calls but that are not part of this model. */
  datatype BeliefModel = BeliefModel(
    dims: Dims,
    alphaBelief: real, alphaControl: real, alphaFinalBelief: real,
    /** tr(SqrtSigma * SqrtSigma) for the square-root covariance unpacked from a belief */
    covTrace: Vec -> real,
    /** beliefDynamics(b, u) */
    dynamics: (Vec, Vec) -> Vec,
    /** linearizeBeliefDynamics(b, u) */
    linearize: (Vec, Vec) -> Linearization,
    limits: Limits,
    xGoal: Vec,
    /** beliefPenaltyMPC_solve: None when the exit flag is not 1 */
    solve: QP -> Option<Solution>)
  {
    /** D[1] and D[T-1] are different buffers and every stage has a belief entry. */
    predicate Valid()
    {
      dims.T >= 3 && dims.B() > 0
    }

    /** B has T beliefs of B_DIM entries and U has T-1 controls of U_DIM entries. */
    predicate Shaped(B: seq<Vec>, U: seq<Vec>)
    {
      && |B| == dims.T && |U| == dims.T - 1
      && (forall t :: 0 <= t < |B| ==> |B[t]| == dims.B())
      && (forall t :: 0 <= t < |U| ==> |U[t]| == dims.uDim)
    }
  }

  // ---------------------------------------------------------------------------
  // Cost, dynamics violation and merit

  /** alpha_belief * tr(SqrtSigma^2) + alpha_control * tr(u' u) for one stage. */
  function StageCost(m: BeliefModel, b: Vec, u: Vec): real
  {
    m.alphaBelief * m.covTrace(b) + m.alphaControl * SumSq(u)
  }

  /** The stage costs of stages 0 .. t-1. */
  function CostUpTo(m: BeliefModel, B: seq<Vec>, U: seq<Vec>, t: nat): real
    requires t <= |B| && t <= |U|
  {
    if t == 0 then 0.0 else CostUpTo(m, B, U, t - 1) + StageCost(m, B[t - 1], U[t - 1])
  }

  /** computeCost: every stage cost plus the final covariance term. */
  function Cost(m: BeliefModel, B: seq<Vec>, U: seq<Vec>): real
    requires m.Valid() && m.Shaped(B, U)
  {
    CostUpTo(m, B, U, m.dims.T - 1) + m.alphaFinalBelief * m.covTrace(B[m.dims.T - 1])
  }

  /** dynviol = b_next - beliefDynamics(b, u) */
  function StageViolation(m: BeliefModel, next: Vec, b: Vec, u: Vec): (v: Vec)
    ensures |v| == m.dims.B()
  {
    Tabulate(m.dims.B(), (i: nat) => At(next, i) - At(m.dynamics(b, u), i))
  }

  /** The L1 norm of the dynamics violation of stages 0 .. t-1. */
  function ViolationUpTo(m: BeliefModel, B: seq<Vec>, U: seq<Vec>, t: nat): (r: real)
    requires t < |B| && t <= |U|
    ensures r >= 0.0
  {
    if t == 0 then 0.0
    else ViolationUpTo(m, B, U, t - 1) + SumAbs(StageViolation(m, B[t], B[t - 1], U[t - 1]))
  }

  function Violation(m: BeliefModel, B: seq<Vec>, U: seq<Vec>): (r: real)
    requires m.Valid() && m.Shaped(B, U)
  {
    ViolationUpTo(m, B, U, m.dims.T - 1)
  }

  /** The penalised objective: cost plus penalty times the L1 dynamics violation. */
  function Merit(m: BeliefModel, B: seq<Vec>, U: seq<Vec>, penalty: real): real
    requires m.Valid() && m.Shaped(B, U)
  {
    Cost(m, B, U) + penalty * Violation(m, B, U)
  }

  /** The merit never undercuts the cost for a non-negative penalty, and equals it on a
      trajectory that satisfies the dynamics. */
  lemma MeritBoundsCost(m: BeliefModel, B: seq<Vec>, U: seq<Vec>, penalty: real)
    requires m.Valid() && m.Shaped(B, U) && penalty >= 0.0
    ensures Merit(m, B, U, penalty) >= Cost(m, B, U)
    ensures Violation(m, B, U) == 0.0 ==> Merit(m, B, U, penalty) == Cost(m, B, U)
  {
  }

  /** An L1 norm is zero exactly when every entry is. */
  lemma {:induction false} SumAbsZero(v: Vec)
    ensures SumAbs(v) == 0.0 <==> forall i :: 0 <= i < |v| ==> v[i] == 0.0
    decreases |v|
  {
    if |v| > 0 {
      var w := v[..|v| - 1];
      SumAbsZero(w);
      assert forall i :: 0 <= i < |w| ==> w[i] == v[i];
    }
  }

  /** The violation vanishes exactly on trajectories that follow the belief dynamics. */
  lemma {:induction false} ViolationZeroUpTo(m: BeliefModel, B: seq<Vec>, U: seq<Vec>, t: nat)
    requires t < |B| && t <= |U|
    ensures ViolationUpTo(m, B, U, t) == 0.0 <==>
              forall s, i :: 0 <= s < t && 0 <= i < m.dims.B() ==> At(B[s + 1], i) == At(m.dynamics(B[s], U[s]), i)
  {
    if t > 0 {
      ViolationZeroUpTo(m, B, U, t - 1);
      var v := StageViolation(m, B[t], B[t - 1], U[t - 1]);
      SumAbsZero(v);
      assert (forall i :: 0 <= i < |v| ==> v[i] == 0.0) <==>
             (forall i :: 0 <= i < m.dims.B() ==> At(B[t], i) == At(m.dynamics(B[t - 1], U[t - 1]), i)) by {
        forall i | 0 <= i < |v|
          ensures v[i] == 0.0 <==> At(B[t], i) == At(m.dynamics(B[t - 1], U[t - 1]), i)
        {
          assert v[i] == At(B[t], i) - At(m.dynamics(B[t - 1], U[t - 1]), i);
        }
      }
    }
  }

  lemma ViolationZero(m: BeliefModel, B: seq<Vec>, U: seq<Vec>)
    requires m.Valid() && m.Shaped(B, U)
    ensures Violation(m, B, U) == 0.0 <==>
              forall t, i :: 0 <= t < m.dims.T - 1 && 0 <= i < m.dims.B() ==> B[t + 1][i] == At(m.dynamics(B[t], U[t]), i)
  {
    ViolationZeroUpTo(m, B, U, m.dims.T - 1);
  }

  lemma Distribute(p: real, a: real, b: real, c: real)
    requires c == a + b
    ensures p * c == p * a + p * b
  {
  }

  /** computeCost: the accumulator loop. */
  method ComputeCost(m: BeliefModel, B: seq<Vec>, U: seq<Vec>) returns (cost: real)
    requires m.Valid() && m.Shaped(B, U)
    ensures cost == Cost(m, B, U)
  {
    cost := 0.0;
    for t := 0 to m.dims.T - 1
      invariant cost == CostUpTo(m, B, U, t)
    {
      cost := cost + (m.alphaBelief * m.covTrace(B[t]) + m.alphaControl * SumSq(U[t]));
    }
    cost := cost + m.alphaFinalBelief * m.covTrace(B[m.dims.T - 1]);
  }

  /** computeMerit: stage costs and penalised violations accumulated stage by stage. */
  method ComputeMerit(m: BeliefModel, B: seq<Vec>, U: seq<Vec>, penalty: real) returns (merit: real)
    requires m.Valid() && m.Shaped(B, U)
    ensures merit == Merit(m, B, U, penalty)
  {
    merit := 0.0;
    ghost var cost, viol := 0.0, 0.0;
    ZeroTimes(penalty);
    for t := 0 to m.dims.T - 1
      invariant cost == CostUpTo(m, B, U, t) && viol == ViolationUpTo(m, B, U, t)
      invariant merit == cost + penalty * viol
    {
      ghost var cost', viol' := cost + StageCost(m, B[t], U[t]), viol + SumAbs(StageViolation(m, B[t + 1], B[t], U[t]));
      merit := AddStageMerit(m, B[t + 1], B[t], U[t], penalty, merit, cost, viol, cost', viol');
      cost, viol := cost', viol';
    }
    merit := merit + m.alphaFinalBelief * m.covTrace(B[m.dims.T - 1]);
  }

  /** One iteration of computeMerit: the stage cost, then the penalised violation of the
      step from b to next under u. */
  method AddStageMerit(m: BeliefModel, next: Vec, b: Vec, u: Vec, penalty: real, merit0: real,
                       ghost cost0: real, ghost viol0: real, ghost cost1: real, ghost viol1: real)
    returns (merit: real)
    requires merit0 == cost0 + penalty * viol0
    requires cost1 == cost0 + StageCost(m, b, u) && viol1 == viol0 + SumAbs(StageViolation(m, next, b, u))
    ensures merit == cost1 + penalty * viol1
  {
    ghost var sc, s := StageCost(m, b, u), SumAbs(StageViolation(m, next, b, u));
    merit := merit0 + (m.alphaBelief * m.covTrace(b) + m.alphaControl * SumSq(u));
    var dynviol := StageViolation(m, next, b, u);
    merit := AddPenalties(merit, penalty, dynviol);
    ScaledAccumulate(penalty, cost0, viol0, sc, s, cost1, viol1, merit0, merit);
  }

  /** for(i < B_DIM) merit += penalty_coeff * fabs(dynviol[i]) */
  method AddPenalties(merit: real, penalty: real, dynviol: Vec) returns (r: real)
    ensures r == merit + penalty * SumAbs(dynviol)
  {
    r := merit;
    ZeroTimes(penalty);
    for i := 0 to |dynviol|
      invariant r == merit + penalty * SumAbs(dynviol[..i])
    {
      assert dynviol[..i + 1][..i] == dynviol[..i];
      Distribute(penalty, SumAbs(dynviol[..i]), Abs(dynviol[i]), SumAbs(dynviol[..i + 1]));
      r := r + penalty * Abs(dynviol[i]);
    }
    assert dynviol[..|dynviol|] == dynviol;
  }

  /** The cntviol loop of beliefPenaltyCollocation. */
  method ConstraintViolation(m: BeliefModel, B: seq<Vec>, U: seq<Vec>) returns (cntviol: real)
    requires m.Valid() && m.Shaped(B, U)
    ensures cntviol == Violation(m, B, U)
  {
    cntviol := 0.0;
    for t := 0 to m.dims.T - 1
      invariant cntviol == ViolationUpTo(m, B, U, t)
    {
      var dynviol := StageViolation(m, B[t + 1], B[t], U[t]);
      ghost var base := cntviol;
      for i := 0 to m.dims.B()
        invariant cntviol == base + SumAbs(dynviol[..i])
      {
        assert dynviol[..i + 1][..i] == dynviol[..i];
        cntviol := cntviol + Abs(dynviol[i]);
      }
      assert dynviol[..m.dims.B()] == dynviol;
    }
  }

  // ---------------------------------------------------------------------------
  // The subproblem and its solution

  /** The selector D[t] of stage t (D[0] is never written by the source). */
  function SelectorFor(d: Dims, t: nat): (s: seq<real>)
    requires d.B() > 0
  {
    if t == 0 then []
    else if t == 1 then Selector(2 * d.B(), d.W(), d.B())
    else if t < d.T - 1 then Selector(d.B(), d.W(), 0)
    else Selector(d.B(), d.B(), 0)
  }

  /** Everything the solver reads in one trust-region iteration: the constant H and D
      of setupBeliefVars, f, C and e linearized around (B, U), and the trust-box bounds
      of half-widths beps and ueps. */
  function BuildQP(m: BeliefModel, B: seq<Vec>, U: seq<Vec>, penalty: real, beps: real, ueps: real): (qp: QP)
    requires m.Valid() && m.Shaped(B, U)
    ensures |qp.H| == |qp.lb| == |qp.ub| == |qp.D| == |qp.e| == m.dims.T
    ensures |qp.f| == |qp.C| == m.dims.T - 1
    ensures forall t :: 0 <= t < m.dims.T - 1 ==>
              |qp.H[t]| == |qp.f[t]| == |qp.lb[t]| == m.dims.W() && |qp.ub[t]| == m.dims.B() + m.dims.uDim
    ensures |qp.H[m.dims.T - 1]| == |qp.lb[m.dims.T - 1]| == |qp.ub[m.dims.T - 1]| == m.dims.B()
    ensures forall t :: 0 <= t < m.dims.T ==> |qp.e[t]| == m.dims.B()
  {
    var d := m.dims;
    var n := d.T - 1;
    var offsets := seq(n, t requires 0 <= t < n => AffineOffset(d, m.linearize(B[t], U[t]), B[t], U[t]));
    assert forall t :: 0 <= t < n ==> |offsets[t]| == d.B() by {
      forall t | 0 <= t < n
        ensures |offsets[t]| == d.B()
      {
        assert offsets[t] == AffineOffset(d, m.linearize(B[t], U[t]), B[t], U[t]);
      }
    }
    QP(H := seq(n, _ => HessianStage(d, m.alphaBelief, m.alphaControl)) + [HessianFinal(d, m.alphaFinalBelief)],
       f := seq(n, _ => GradientStage(d, penalty)),
       lb := seq(n, t requires 0 <= t < n => StageLower(d, m.limits, B[t], U[t], beps, ueps))
             + [FinalLower(d, m.xGoal, B[n], beps)],
       ub := seq(n, t requires 0 <= t < n => StageUpper(d, m.limits, B[t], U[t], beps, ueps))
             + [FinalUpper(d, m.xGoal, B[n], beps)],
       C := seq(n, t requires 0 <= t < n => ConstraintStage(d, m.linearize(B[t], U[t]))),
       D := seq(d.T, t requires 0 <= t => SelectorFor(d, t)),
       e := [B[0]] + offsets)
  }

  /** Bopt: the first B_DIM entries of every stage of the solution. */
  function ExtractB(m: BeliefModel, z: seq<Vec>): (B: seq<Vec>)
    ensures |B| == m.dims.T
    ensures forall t :: 0 <= t < |B| ==> |B[t]| == m.dims.B()
    ensures forall t, i :: 0 <= t < |B| && 0 <= i < m.dims.B() ==> B[t][i] == At(StageOf(z, t), i)
  {
    seq(m.dims.T, t requires 0 <= t => Tabulate(m.dims.B(), (i: nat) => At(StageOf(z, t), i)))
  }

  /** Uopt: the U_DIM entries after the belief in every stage but the last. */
  function ExtractU(m: BeliefModel, z: seq<Vec>): (U: seq<Vec>)
    requires m.Valid()
    ensures |U| == m.dims.T - 1
    ensures forall t :: 0 <= t < |U| ==> |U[t]| == m.dims.uDim
    ensures forall t, i :: 0 <= t < |U| && 0 <= i < m.dims.uDim ==> U[t][i] == At(StageOf(z, t), m.dims.B() + i)
  {
    seq(m.dims.T - 1, t requires 0 <= t => Tabulate(m.dims.uDim, (i: nat) => At(StageOf(z, t), m.dims.B() + i)))
  }

  /** A trajectory read back from any solution has the planner's shape. */
  lemma ExtractShaped(m: BeliefModel, z: seq<Vec>)
    requires m.Valid()
    ensures m.Shaped(ExtractB(m, z), ExtractU(m, z))
  {
  }

  /** What one solve of the inner loop produced: the decision and the candidate. */
  datatype Step = Step(decision: Decision, B: seq<Vec>, U: seq<Vec>)

  /** One trust-region iteration at (B, U) with half-width eps: the candidate read back
      from the solution and the decision taken on it, or None when the solver's exit
      flag is not 1. */
  function Trial(m: BeliefModel, B: seq<Vec>, U: seq<Vec>, penalty: real, eps: real): (step: Option<Step>)
    requires m.Valid() && m.Shaped(B, U)
    ensures step.Some? ==> m.Shaped(step.value.B, step.value.U)
  {
    match m.solve(BuildQP(m, B, U, penalty, eps, eps))
    case None => None
    case Some(sol) =>
      ExtractShaped(m, sol.z);
      var Bopt, Uopt := ExtractB(m, sol.z), ExtractU(m, sol.z);
      var merit := Merit(m, B, U, penalty);
      Some(Step(Decide(merit - sol.pobj, merit - Merit(m, Bopt, Uopt, penalty), MinApproxImprove), Bopt, Uopt))
  }

  /** A trial that expands the box offers a candidate whose merit is lower by at least
      improve_ratio_threshold * min_approx_improve. */
  lemma TrialExpandImproves(m: BeliefModel, B: seq<Vec>, U: seq<Vec>, penalty: real, eps: real)
    requires m.Valid() && m.Shaped(B, U)
    requires Trial(m, B, U, penalty, eps).Some? && Trial(m, B, U, penalty, eps).value.decision == Expand
    ensures var t := Trial(m, B, U, penalty, eps).value;
            Merit(m, t.B, t.U, penalty) <= Merit(m, B, U, penalty) - ImproveRatioThreshold * MinApproxImprove
  {
    var sol := m.solve(BuildQP(m, B, U, penalty, eps, eps)).value;
    var merit := Merit(m, B, U, penalty);
    ExpandImproves(merit - sol.pobj, merit - Merit(m, ExtractB(m, sol.z), ExtractU(m, sol.z), penalty), MinApproxImprove);
  }

  // ---------------------------------------------------------------------------
  // minimizeMeritFunction

  /** Where the inner loop stands: the current trajectory and the common half-width of
      the belief and control boxes (Beps and Ueps are always set together). */
  datatype TrustState = TrustState(B: seq<Vec>, U: seq<Vec>, eps: real)

  /** A decision and the state the loop goes on from after it. */
  datatype Move = Move(decision: Decision, next: TrustState)

  /** Where the loop goes on from after the trial t at s. Fail keeps trajectory and
      box; Converge adopts the candidate; Shrink keeps the trajectory in a box half as
      wide; Expand adopts the candidate in a box half as wide again. */
  function Advance(s: TrustState, t: Step): (s': TrustState)
    ensures t.decision == Fail || t.decision == Shrink ==> s'.B == s.B && s'.U == s.U
    ensures t.decision == Converge || t.decision == Expand ==> s'.B == t.B && s'.U == t.U
    ensures s'.eps == Resize(t.decision, s.eps)
  {
    match t.decision
    case Fail => s
    case Converge => TrustState(t.B, t.U, s.eps)
    case Shrink => TrustState(s.B, s.U, s.eps * TrustShrinkRatio)
    case Expand => TrustState(t.B, t.U, s.eps * TrustExpandRatio)
  }

  /** One iteration of the inner loop from s, or None when the solver fails. */
  function Next(m: BeliefModel, penalty: real, s: TrustState): (mv: Option<Move>)
    requires m.Valid() && m.Shaped(s.B, s.U)
    ensures mv.Some? ==> m.Shaped(mv.value.next.B, mv.value.next.U)
  {
    match Trial(m, s.B, s.U, penalty, s.eps)
    case None => None
    case Some(t) => Some(Move(t.decision, Advance(s, t)))
  }

  /** No iteration raises the merit, except a converging one, which adopts its
      candidate untested; an expanding one lowers it by at least
      improve_ratio_threshold * min_approx_improve. */
  lemma NextMerit(m: BeliefModel, penalty: real, s: TrustState)
    requires m.Valid() && m.Shaped(s.B, s.U) && Next(m, penalty, s).Some?
    ensures var mv := Next(m, penalty, s).value;
            && (mv.decision != Converge ==> Merit(m, mv.next.B, mv.next.U, penalty) <= Merit(m, s.B, s.U, penalty))
            && (mv.decision == Expand ==>
                  Merit(m, mv.next.B, mv.next.U, penalty) <= Merit(m, s.B, s.U, penalty) - ImproveRatioThreshold * MinApproxImprove)
  {
    if Next(m, penalty, s).value.decision == Expand {
      TrialExpandImproves(m, s.B, s.U, penalty, s.eps);
    }
  }

  /** Why minimizeMeritFunction returned. */
  datatype Stop =
    | SmallImprovement  // the model predicted less than min_approx_improve
    | SmallTrustBox     // both half-widths fell below min_trust_box_size

  /** Returned: the function returned its boolean. Exited: the solver failed and the
      process exits. Unfinished: the step budget of the model ran out first. */
  datatype MeritResult = Returned(success: bool, stop: Stop) | Exited | Unfinished

  /** Where a run of the loop ends and why. */
  datatype MeritOutcome = MeritOutcome(last: TrustState, result: MeritResult)

  /** The control flow of minimizeMeritFunction for any step function, run from s for
      at most fuel solves, one solve per step whichever of its two loops the step falls
      in: it returns true right after a Converge, and after a Fail or Shrink that
      leaves the box below min_trust_box_size (an Expand goes on at once, the outer
      loop relinearizing at the candidate); a failing solver exits; otherwise it goes
      on from the next state. */
  function Loop(next: TrustState -> Option<Move>, s: TrustState, fuel: nat): (o: MeritOutcome)
    ensures o.result.Returned? ==> o.result.success
    decreases fuel
  {
    if fuel == 0 then MeritOutcome(s, Unfinished)
    else match next(s)
      case None => MeritOutcome(s, Exited)
      case Some(mv) =>
        if mv.decision == Converge then MeritOutcome(mv.next, Returned(true, SmallImprovement))
        else if mv.decision != Expand && mv.next.eps < MinTrustBoxSize then MeritOutcome(mv.next, Returned(true, SmallTrustBox))
        else Loop(next, mv.next, fuel - 1)
  }

  /** How many steps a run of Loop accepts (Expand) before it ends. */
  function LoopAccepted(next: TrustState -> Option<Move>, s: TrustState, fuel: nat): (n: nat)
    ensures n <= fuel
    decreases fuel
  {
    if fuel == 0 then 0
    else match next(s)
      case None => 0
      case Some(mv) =>
        if mv.decision == Converge || (mv.decision != Expand && mv.next.eps < MinTrustBoxSize) then 0
        else (if mv.decision == Expand then 1 else 0) + LoopAccepted(next, mv.next, fuel - 1)
  }

  /** Along a run of Loop, a value that no Fail or Shrink raises and that every Expand
      lowers by at least improve_ratio_threshold * min_approx_improve ends, unless the
      run stopped on Converge, that much per accepted step below where it started. */
  lemma {:induction false} LoopLowers(next: TrustState -> Option<Move>, value: TrustState -> real, s: TrustState, fuel: nat)
    requires forall s' :: next(s').Some? && (next(s').value.decision == Fail || next(s').value.decision == Shrink) ==>
               value(next(s').value.next) <= value(s')
    requires forall s' :: next(s').Some? && next(s').value.decision == Expand ==>
               value(next(s').value.next) <= value(s') - ImproveRatioThreshold * MinApproxImprove
    ensures Loop(next, s, fuel).result != Returned(true, SmallImprovement) ==>
              value(Loop(next, s, fuel).last) <= value(s) - ImproveRatioThreshold * MinApproxImprove * LoopAccepted(next, s, fuel) as real
    decreases fuel
  {
    if fuel > 0 && next(s).Some? {
      var mv := next(s).value;
      if mv.decision != Converge && (mv.decision == Expand || mv.next.eps >= MinTrustBoxSize) {
        var k := if mv.decision == Expand then 1 else 0;
        var o, rest := Loop(next, mv.next, fuel - 1), LoopAccepted(next, mv.next, fuel - 1);
        assert Loop(next, s, fuel) == o && LoopAccepted(next, s, fuel) == k + rest;
        LoopLowers(next, value, mv.next, fuel - 1);
        if o.result != Returned(true, SmallImprovement) {
          ChainDecrease(value(s), value(mv.next), value(o.last), ImproveRatioThreshold * MinApproxImprove, k, rest);
        }
      }
    }
  }

  /** A step that fails and leaves the state as it was, in a box of at least
      min_trust_box_size, repeats for ever: the run never returns. */
  lemma {:induction false} LoopFailRepeats(next: TrustState -> Option<Move>, s: TrustState, fuel: nat)
    requires s.eps >= MinTrustBoxSize && next(s) == Some(Move(Fail, s))
    ensures Loop(next, s, fuel) == MeritOutcome(s, Unfinished)
    decreases fuel
  {
    if fuel > 0 {
      LoopFailRepeats(next, s, fuel - 1);
    }
  }

  /** The step minimizeMeritFunction takes at s with this penalty (None off the
      planner's shapes, where the loop never goes). */
  function NextAt(m: BeliefModel, penalty: real): TrustState -> Option<Move>
  {
    (s: TrustState) => if m.Valid() && m.Shaped(s.B, s.U) then Next(m, penalty, s) else None
  }

  /** The merit of the trajectory at s (0 off the planner's shapes). */
  function MeritAt(m: BeliefModel, penalty: real): TrustState -> real
  {
    (s: TrustState) => if m.Valid() && m.Shaped(s.B, s.U) then Merit(m, s.B, s.U, penalty) else 0.0
  }

  /** A property of states that every step keeps holds of the state a run of Loop
      ends in. */
  lemma {:induction false} LoopKeeps(next: TrustState -> Option<Move>, inv: TrustState -> bool, s: TrustState, fuel: nat)
    requires inv(s)
    requires forall s' :: inv(s') && next(s').Some? ==> inv(next(s').value.next)
    ensures inv(Loop(next, s, fuel).last)
    decreases fuel
  {
    if fuel > 0 && next(s).Some? {
      LoopKeeps(next, inv, next(s).value.next, fuel - 1);
    }
  }

  /** Every step from a state of the planner's shape leads to one. */
  lemma NextAtShaped(m: BeliefModel, penalty: real)
    ensures forall s: TrustState :: m.Shaped(s.B, s.U) && NextAt(m, penalty)(s).Some? ==>
              m.Shaped(NextAt(m, penalty)(s).value.next.B, NextAt(m, penalty)(s).value.next.U)
  {
  }

  /** minimizeMeritFunction at this penalty run from s for at most fuel solves. */
  function Run(m: BeliefModel, penalty: real, s: TrustState, fuel: nat): (o: MeritOutcome)
    requires m.Valid() && m.Shaped(s.B, s.U)
    ensures m.Shaped(o.last.B, o.last.U)
    ensures o.result.Returned? ==> o.result.success
  {
    NextAtShaped(m, penalty);
    LoopKeeps(NextAt(m, penalty), (s': TrustState) => m.Shaped(s'.B, s'.U), s, fuel);
    Loop(NextAt(m, penalty), s, fuel)
  }

  /** How many steps that run accepts. */
  function Accepted(m: BeliefModel, penalty: real, s: TrustState, fuel: nat): (n: nat)
    ensures n <= fuel
  {
    LoopAccepted(NextAt(m, penalty), s, fuel)
  }

  /** The loop's first solve, on the trial t at s: Converge returns true at the
      advanced state; a Fail or Shrink that leaves the box below min_trust_box_size
      returns true there; otherwise the loop goes on from the advanced state. */
  lemma RunStep(m: BeliefModel, penalty: real, s: TrustState, fuel: nat, t: Step)
    requires m.Valid() && m.Shaped(s.B, s.U) && fuel > 0 && Trial(m, s.B, s.U, penalty, s.eps) == Some(t)
    ensures m.Shaped(Advance(s, t).B, Advance(s, t).U)
    ensures var s' := Advance(s, t);
            Run(m, penalty, s, fuel) ==
              if t.decision == Converge then MeritOutcome(s', Returned(true, SmallImprovement))
              else if t.decision != Expand && s'.eps < MinTrustBoxSize then MeritOutcome(s', Returned(true, SmallTrustBox))
              else Run(m, penalty, s', fuel - 1)
  {
    assert NextAt(m, penalty)(s) == Some(Move(t.decision, Advance(s, t)));
  }

  /** A Fail verdict keeps trajectory and box, so the same subproblem fails again: with
      a box of at least min_trust_box_size the loop never returns. */
  lemma FailRepeats(m: BeliefModel, penalty: real, s: TrustState, fuel: nat)
    requires m.Valid() && m.Shaped(s.B, s.U) && s.eps >= MinTrustBoxSize
    requires Next(m, penalty, s).Some? && Next(m, penalty, s).value.decision == Fail
    ensures Run(m, penalty, s, fuel) == MeritOutcome(s, Unfinished)
  {
    assert NextAt(m, penalty)(s) == Some(Move(Fail, s));
    LoopFailRepeats(NextAt(m, penalty), s, fuel);
  }

  /** No step of minimizeMeritFunction that fails or shrinks raises the merit, and one
      that expands lowers it by at least improve_ratio_threshold * min_approx_improve. */
  lemma NextAtLowers(m: BeliefModel, penalty: real)
    ensures forall s :: NextAt(m, penalty)(s).Some? && (NextAt(m, penalty)(s).value.decision == Fail || NextAt(m, penalty)(s).value.decision == Shrink) ==>
              MeritAt(m, penalty)(NextAt(m, penalty)(s).value.next) <= MeritAt(m, penalty)(s)
    ensures forall s :: NextAt(m, penalty)(s).Some? && NextAt(m, penalty)(s).value.decision == Expand ==>
              MeritAt(m, penalty)(NextAt(m, penalty)(s).value.next) <= MeritAt(m, penalty)(s) - ImproveRatioThreshold * MinApproxImprove
  {
    forall s | NextAt(m, penalty)(s).Some?
      ensures NextAt(m, penalty)(s).value.decision != Converge ==>
                MeritAt(m, penalty)(NextAt(m, penalty)(s).value.next) <= MeritAt(m, penalty)(s)
      ensures NextAt(m, penalty)(s).value.decision == Expand ==>
                MeritAt(m, penalty)(NextAt(m, penalty)(s).value.next) <= MeritAt(m, penalty)(s) - ImproveRatioThreshold * MinApproxImprove
    {
      NextMerit(m, penalty, s);
    }
  }

  /** Unless the loop stopped on Converge, the trajectory it ends with has a merit
      lower than the one it started from by at least improve_ratio_threshold *
      min_approx_improve per accepted step. */
  lemma RunLowersMerit(m: BeliefModel, penalty: real, s: TrustState, fuel: nat)
    requires m.Valid() && m.Shaped(s.B, s.U)
    ensures var o := Run(m, penalty, s, fuel);
            o.result != Returned(true, SmallImprovement) ==>
              Merit(m, o.last.B, o.last.U, penalty)
                <= Merit(m, s.B, s.U, penalty) - ImproveRatioThreshold * MinApproxImprove * Accepted(m, penalty, s, fuel) as real
  {
    NextAtLowers(m, penalty);
    LoopLowers(NextAt(m, penalty), MeritAt(m, penalty), s, fuel);
  }

  /** The SQP loop for a fixed penalty: relinearize at the current trajectory, then
      shrink the trust box until a step is accepted (the box then grows by half and the
      loop relinearizes) or one of the convergence tests returns. The solver is
      deterministic, so a failed convexification with a box that is not yet small
      solves the same subproblem again and again: the source never leaves that loop,
      which the model shows by running out of its step budget. */
  method MinimizeMeritFunction(m: BeliefModel, B0: seq<Vec>, U0: seq<Vec>, penalty: real, trustBoxSize: real, fuel: nat)
    returns (B: seq<Vec>, U: seq<Vec>, r: MeritResult)
    requires m.Valid() && m.Shaped(B0, U0)
    ensures var o := Run(m, penalty, TrustState(B0, U0, trustBoxSize), fuel);
            B == o.last.B && U == o.last.U && r == o.result
  {
    B, U := B0, U0;
    var eps := trustBoxSize;
    var budget := fuel;
    r := Unfinished;
    ghost var goal := Run(m, penalty, TrustState(B0, U0, trustBoxSize), fuel);
    while budget > 0
      invariant m.Shaped(B, U) && r == Unfinished
      invariant Run(m, penalty, TrustState(B, U, eps), budget) == goal
      decreases budget
    {
      var merit := ComputeMerit(m, B, U, penalty);
      B, U, eps, budget, r := TrustRegionLoop(m, penalty, B, U, eps, merit, budget, goal);
      if r != Unfinished {
        return;
      }
    }
  }

  /** The inner loop of minimizeMeritFunction at one linearization: solve inside the
      box of half-width eps (Beps = Ueps), and shrink it after every rejected step.
      It leaves with Unfinished after an accepted step, for the outer loop to
      relinearize, or when the budget is spent; otherwise it has returned. */
  method TrustRegionLoop(m: BeliefModel, penalty: real, B0: seq<Vec>, U0: seq<Vec>, eps0: real, merit: real, budget0: nat,
                         ghost goal: MeritOutcome)
    returns (B: seq<Vec>, U: seq<Vec>, eps: real, budget: nat, r: MeritResult)
    requires m.Valid() && m.Shaped(B0, U0) && merit == Merit(m, B0, U0, penalty) && budget0 > 0
    requires Run(m, penalty, TrustState(B0, U0, eps0), budget0) == goal
    ensures m.Shaped(B, U) && budget < budget0
    ensures r == Unfinished ==> Run(m, penalty, TrustState(B, U, eps), budget) == goal
    ensures r != Unfinished ==> goal == MeritOutcome(TrustState(B, U, eps), r)
  {
    budget := budget0;
    var beps, ueps := eps0, eps0;
    ghost var left := budget0;
    while true
      invariant beps == ueps && budget <= budget0 && left == budget
      invariant Run(m, penalty, TrustState(B0, U0, beps), left) == goal
      decreases budget
    {
      if budget == 0 {
        return B0, U0, beps, budget, Unfinished;
      }
      var leave;
      B, U, beps, ueps, r, leave, left := TrustRegionStep(m, penalty, B0, U0, beps, ueps, merit, left, goal);
      budget := budget - 1;
      if leave {
        return B, U, beps, budget, r;
      }
    }
  }

  /** One pass of the inner loop with budget solves left: solve, decide, resize the
      box, and either leave the inner loop (with the state and result it leaves with)
      or stay at (B0, U0) in the resized box. */
  method TrustRegionStep(m: BeliefModel, penalty: real, B0: seq<Vec>, U0: seq<Vec>, beps0: real, ueps0: real, merit: real,
                         ghost budget: nat, ghost goal: MeritOutcome)
    returns (B: seq<Vec>, U: seq<Vec>, beps: real, ueps: real, r: MeritResult, leave: bool, ghost left: nat)
    requires m.Valid() && m.Shaped(B0, U0) && merit == Merit(m, B0, U0, penalty) && budget > 0 && beps0 == ueps0
    requires Run(m, penalty, TrustState(B0, U0, beps0), budget) == goal
    ensures m.Shaped(B, U) && beps == ueps && left == budget - 1
    ensures !leave ==> B == B0 && U == U0 && r == Unfinished && Run(m, penalty, TrustState(B, U, beps), left) == goal
    ensures leave && r == Unfinished ==> Run(m, penalty, TrustState(B, U, beps), left) == goal
    ensures leave && r != Unfinished ==> goal == MeritOutcome(TrustState(B, U, beps), r)
  {
    B, U, beps, ueps, r, left := B0, U0, beps0, ueps0, Unfinished, budget - 1;
    ghost var here := TrustState(B0, U0, beps0);
    var step := SolveStep(m, B0, U0, penalty, beps0, merit);
    if step.None? {
      return B0, U0, beps0, ueps0, Exited, true, left;
    }
    RunStep(m, penalty, here, budget, step.value);
    var decision := step.value.decision;
    var success := true;
    match decision {
      case Fail =>
        success := false;
      case Converge =>
        return step.value.B, step.value.U, beps, ueps, Returned(true, SmallImprovement), true, left;
      case Shrink =>
        beps, ueps := Resize(decision, beps), Resize(decision, ueps);
      case Expand =>
        beps, ueps := Resize(decision, beps), Resize(decision, ueps);
        return step.value.B, step.value.U, beps, ueps, Unfinished, true, left;
    }
    leave := beps < MinTrustBoxSize && ueps < MinTrustBoxSize;
    if leave {
      r := Returned(true, SmallTrustBox);
    }
  }

  /** One pass of the inner loop up to the decision: build the subproblem inside the
      box, solve it, extract the candidate and test its merit. None: the solver failed. */
  method SolveStep(m: BeliefModel, B: seq<Vec>, U: seq<Vec>, penalty: real, eps: real, merit: real)
    returns (step: Option<Step>)
    requires m.Valid() && m.Shaped(B, U) && merit == Merit(m, B, U, penalty)
    ensures step == Trial(m, B, U, penalty, eps)
    ensures step.Some? && step.value.decision == Expand ==>
              Merit(m, step.value.B, step.value.U, penalty) <= merit - ImproveRatioThreshold * MinApproxImprove
  {
    var qp := BuildQP(m, B, U, penalty, eps, eps);
    var sol := m.solve(qp);
    if sol.None? {
      return None;
    }
    var Bopt, Uopt := ExtractB(m, sol.value.z), ExtractU(m, sol.value.z);
    ExtractShaped(m, sol.value.z);
    var newMerit := ComputeMerit(m, Bopt, Uopt, penalty);
    var approxImprove, exactImprove := merit - sol.value.pobj, merit - newMerit;
    var decision := Decide(approxImprove, exactImprove, MinApproxImprove);
    if decision == Expand {
      ExpandImproves(approxImprove, exactImprove, MinApproxImprove);
    }
    step := Some(Step(decision, Bopt, Uopt));
  }

  // ---------------------------------------------------------------------------
  // beliefPenaltyCollocation

  /** The penalty coefficient of attempt k (counting from 0): 5, 25, 125. */
  function PenaltyFor(k: nat): (p: real)
    ensures p >= InitialPenaltyCoeff
  {
    if k == 0 then InitialPenaltyCoeff else PenaltyFor(k - 1) * PenaltyCoeffIncreaseRatio
  }

  /** Every attempt penalises the dynamics violation harder than the one before. */
  lemma {:induction false} PenaltyGrows(j: nat, k: nat)
    requires j < k
    ensures PenaltyFor(j) < PenaltyFor(k)
    decreases k
  {
    if j < k - 1 {
      PenaltyGrows(j, k - 1);
    }
  }

  /** The outcome of beliefPenaltyCollocation: the cost it returns, unless the solver
      failed (Aborted) or the step budget ran out (Stalled). */
  datatype Collocation = Finished(cost: real) | Aborted | Stalled

  /** What the penalty loop makes of a run of minimizeMeritFunction: the process exits
      with the solver (Aborted), the budget ran out (Stalled), the cost is returned
      because the run succeeded within cnt_tolerance, or None: the penalty must grow. */
  function AttemptVerdict(m: BeliefModel, o: MeritOutcome): (v: Option<Collocation>)
    requires m.Valid() && m.Shaped(o.last.B, o.last.U)
  {
    match o.result
    case Exited => Some(Aborted)
    case Unfinished => Some(Stalled)
    case Returned(success, _) =>
      if success && Violation(m, o.last.B, o.last.U) < CntTolerance then Some(Finished(Cost(m, o.last.B, o.last.U)))
      else None
  }

  /** Where beliefPenaltyCollocation leaves B and U, what it returns, and how many
      attempts it made. */
  datatype PenaltyOutcome = PenaltyOutcome(B: seq<Vec>, U: seq<Vec>, result: Collocation, attempts: nat)

  /** The penalty loop from attempt k on, at (B, U): attempt k runs the SQP loop from
      (B, U) with the k-th penalty and a trust box of initial_trust_box_size. The first
      attempt with a verdict ends the loop; otherwise the next attempt starts where this
      one ended, and after the last attempt the cost of its trajectory is returned. */
  function Collocate(m: BeliefModel, B: seq<Vec>, U: seq<Vec>, k: nat, fuel: nat): (o: PenaltyOutcome)
    requires m.Valid() && m.Shaped(B, U) && k < MaxPenaltyCoeffIncreases
    ensures m.Shaped(o.B, o.U) && k < o.attempts <= MaxPenaltyCoeffIncreases
    ensures o.result.Finished? ==>
              o.result.cost == Cost(m, o.B, o.U) && (Violation(m, o.B, o.U) < CntTolerance || o.attempts == MaxPenaltyCoeffIncreases)
    decreases MaxPenaltyCoeffIncreases - k
  {
    var run := Run(m, PenaltyFor(k), TrustState(B, U, InitialTrustBoxSize), fuel);
    match AttemptVerdict(m, run)
    case Some(v) => PenaltyOutcome(run.last.B, run.last.U, v, k + 1)
    case None =>
      if k + 1 == MaxPenaltyCoeffIncreases then
        PenaltyOutcome(run.last.B, run.last.U, Finished(Cost(m, run.last.B, run.last.U)), k + 1)
      else
        Collocate(m, run.last.B, run.last.U, k + 1, fuel)
  }

  /** The penalty loop: solve with penalty 5, and while the result still violates the
      dynamics by cnt_tolerance or more, multiply the penalty by 5 and solve again from
      the trajectory reached, for at most max_penalty_coeff_increases attempts; the
      cost of the final trajectory is returned either way. */
  method BeliefPenaltyCollocation(m: BeliefModel, B0: seq<Vec>, U0: seq<Vec>, fuel: nat)
    returns (B: seq<Vec>, U: seq<Vec>, r: Collocation, ghost attempts: nat)
    requires m.Valid() && m.Shaped(B0, U0)
    ensures PenaltyOutcome(B, U, r, attempts) == Collocate(m, B0, U0, 0, fuel)
  {
    var penalty := InitialPenaltyCoeff;
    var trustBoxSize := InitialTrustBoxSize;
    var increases: nat := 0;
    B, U := B0, U0;
    attempts := 0;
    ghost var goal := Collocate(m, B0, U0, 0, fuel);
    while increases < MaxPenaltyCoeffIncreases
      invariant m.Shaped(B, U) && increases <= MaxPenaltyCoeffIncreases
      invariant attempts == increases && penalty == PenaltyFor(increases) && trustBoxSize == InitialTrustBoxSize
      invariant increases < MaxPenaltyCoeffIncreases ==> Collocate(m, B, U, increases, fuel) == goal
      invariant increases == MaxPenaltyCoeffIncreases ==>
                  goal == PenaltyOutcome(B, U, Finished(Cost(m, B, U)), MaxPenaltyCoeffIncreases)
    {
      var verdict;
      B, U, verdict := PenaltyAttempt(m, B, U, penalty, trustBoxSize, fuel);
      attempts := attempts + 1;
      if verdict.Some? {
        r := verdict.value;
        return;
      }
      increases := increases + 1;
      penalty := penalty * PenaltyCoeffIncreaseRatio;
      trustBoxSize := InitialTrustBoxSize;
    }
    var cost := ComputeCost(m, B, U);
    r := Finished(cost);
  }

  /** One pass of the penalty loop's body: minimise the merit function at this penalty;
      None means the result still violates the dynamics (or the solve reported failure)
      and the penalty must grow, Some the value beliefPenaltyCollocation returns. */
  method PenaltyAttempt(m: BeliefModel, B0: seq<Vec>, U0: seq<Vec>, penalty: real, trustBoxSize: real, fuel: nat)
    returns (B: seq<Vec>, U: seq<Vec>, verdict: Option<Collocation>)
    requires m.Valid() && m.Shaped(B0, U0)
    ensures var run := Run(m, penalty, TrustState(B0, U0, trustBoxSize), fuel);
            B == run.last.B && U == run.last.U && verdict == AttemptVerdict(m, run)
    ensures verdict.None? ==> Violation(m, B, U) >= CntTolerance
    ensures verdict.Some? && verdict.value.Finished? ==>
              verdict.value.cost == Cost(m, B, U) && Violation(m, B, U) < CntTolerance
  {
    var result;
    B, U, result := MinimizeMeritFunction(m, B0, U0, penalty, trustBoxSize, fuel);
    if result.Exited? {
      return B, U, Some(Aborted);
    } else if result.Unfinished? {
      return B, U, Some(Stalled);
    }
    var success := result.success;
    var cntviol := ConstraintViolation(m, B, U);
    success := success && cntviol < CntTolerance;
    if !success {
      verdict := None;
    } else {
      var cost := ComputeCost(m, B, U);
      verdict := Some(Finished(cost));
    }
  }
}
