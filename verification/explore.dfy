/** The exploration planner's trust-region SCP. Each stage t < T-1 of the subproblem
    holds the states of all N copies of the robot state (N*X_DIM entries, the source's
    comments call them particles) followed by their controls (N*U_DIM entries); the
    last stage holds the states only. The entropy of the particle set and its gradient
    are computed by routines outside this model and enter as functions; the Hessian
    estimate is the zero vector (the call that would compute it is commented out) and
    is clamped to be non-negative. */
module Explore {
  import opened Common
  import opened TrustRegion
  import Index
  import opened Buffers

  const MinApproxImprove: real := 0.0001
  /** Declared next to the other settings but never read by the loop. */
  const MinTrustBoxSize: real := 0.0001
  const MaxIter: nat := 100
  const InitialTrustBoxSize: real := 0.5

  /** T, N, X_DIM and U_DIM (compile-time constants of the source). */
  datatype Dims = Dims(T: nat, N: nat, xDim: nat, uDim: nat)
  {
    /** N*X_DIM */
    function SX(): nat { N * xDim }
    /** N*U_DIM */
    function SU(): nat { N * uDim }
    /** variables of stage t */
    function Size(t: nat): nat { if t + 1 < T then SX() + SU() else SX() }
    /** position of stage t in the flat gradient and Hessian vectors */
    function Offset(t: nat): nat { t * (SX() + SU()) }

    /** X has T stages of N*X_DIM entries and U has T-1 stages of N*U_DIM entries. */
    predicate Shaped(X: seq<Vec>, U: seq<Vec>)
    {
      && |X| == T && |U| == T - 1
      && (forall t :: 0 <= t < |X| ==> |X[t]| == SX())
      && (forall t :: 0 <= t < |U| ==> |U[t]| == SU())
    }
  }

  lemma OffsetStep(d: Dims, t: nat)
    ensures d.Offset(t + 1) == d.Offset(t) + (d.SX() + d.SU())
  {
  }

  /** The global limits xMin, xMax (per state entry) and uMin, uMax (per control entry). */
  datatype Limits = Limits(xMin: Vec, xMax: Vec, uMin: Vec, uMax: Vec)

  /** What the solver reads: diagonal H, linear term f, bounds lb, ub per stage, and the
      initial-state constant c. */
  datatype QP = QP(H: seq<Vec>, f: seq<Vec>, lb: seq<Vec>, ub: seq<Vec>, c: Vec)

  /** The primal variables per stage and the objective value info.pobj. */
  datatype Solution = Solution(z: seq<Vec>, pobj: real)

  /** The problem and the routines the loop calls but that are not part of this model. */
  datatype ExploreModel = ExploreModel(
    dims: Dims,
    limits: Limits,
    /** the INFTY constant of the source */
    infty: real,
    /** casadi_differential_entropy(X, U, P) for the particle set P of this call */
    entropy: (seq<Vec>, seq<Vec>) -> real,
    /** casadi_grad_differential_entropy(X, U, P), a vector over all stages */
    gradient: (seq<Vec>, seq<Vec>) -> Vec,
    /** exploreMPC_solve: None when the exit flag is not 1 */
    solve: QP -> Option<Solution>)
  {
    predicate Valid()
    {
      dims.T >= 2 && dims.N > 0 && dims.xDim > 0 && dims.uDim > 0
    }
  }

  // ---------------------------------------------------------------------------
  // The Hessian, forced non-negative

  /** (val < 0) ? 0 : val: the least non-negative value not below val. */
  function ClampNonnegative(v: real): (r: real)
    ensures r >= 0.0 && r >= v
    ensures r == v || r == 0.0
  {
    if v < 0.0 then 0.0 else v
  }

  /** H[t]: the clamped diagonal Hessian entries of stage t. */
  function HessianStage(d: Dims, diaghess: Vec, t: nat): (h: Vec)
    ensures |h| == d.Size(t)
  {
    Tabulate(d.Size(t), (i: nat) => ClampNonnegative(At(diaghess, d.Offset(t) + i)))
  }

  /** Every Hessian entry written is non-negative, no smaller than the estimate, and
      equal to it where the estimate is already non-negative. */
  lemma HessianStageClamped(d: Dims, diaghess: Vec, t: nat)
    ensures var h := HessianStage(d, diaghess, t);
      && (forall i :: 0 <= i < |h| ==> h[i] >= 0.0 && h[i] >= At(diaghess, d.Offset(t) + i))
      && (forall i :: 0 <= i < |h| && At(diaghess, d.Offset(t) + i) >= 0.0 ==> h[i] == At(diaghess, d.Offset(t) + i))
  {
    var h := HessianStage(d, diaghess, t);
    assert forall i :: 0 <= i < |h| ==> h[i] == ClampNonnegative(At(diaghess, d.Offset(t) + i));
  }

  /** The Hessian loops of exploreCollocation: one running index over diaghess. */
  method ClampHessian(H: seq<array<real>>, d: Dims, diaghess: Vec)
    requires d.T >= 1 && |H| == d.T && Distinct(H)
    requires forall t :: 0 <= t < d.T ==> d.Size(t) <= H[t].Length
    modifies set t | 0 <= t < |H| :: H[t]
    ensures forall t :: 0 <= t < d.T ==> H[t][..d.Size(t)] == HessianStage(d, diaghess, t)
  {
    var index := 0;
    for t := 0 to d.T - 1
      invariant index == d.Offset(t)
      invariant forall s :: 0 <= s < t ==> H[s][..d.Size(s)] == HessianStage(d, diaghess, s)
    {
      var start := index;
      var next := WriteRun(H[t], 0, d.SX() + d.SU(), (i: nat) => ClampNonnegative(At(diaghess, start + i)));
      OffsetStep(d, t);
      index := index + (d.SX() + d.SU());
    }
    var start := index;
    var next := WriteRun(H[d.T - 1], 0, d.SX(), (i: nat) => ClampNonnegative(At(diaghess, start + i)));
  }

  // ---------------------------------------------------------------------------
  // The linear term and the Taylor constant

  /** The expansion point zbar of stage t: states then controls, and the final states
      X[T-1] at the last stage. */
  function Zbar(d: Dims, X: seq<Vec>, U: seq<Vec>, t: nat): (zb: Vec)
    requires d.Shaped(X, U) && t < d.T
    ensures |zb| == d.Size(t)
  {
    if t + 1 < d.T then X[t] + U[t] else X[t]
  }

  /** The final-stage zbar as the source writes it, zbar.insert(0, 0, X[T]): X holds T
      states, so the read is past the end (None stands for that undefined read). */
  function FinalZbarAsWritten(d: Dims, X: seq<Vec>): Option<Vec>
  {
    if d.T < |X| then Some(Tabulate(d.SX(), (i: nat) => At(X[d.T], i))) else None
  }

  /** Every well-shaped trajectory makes the final-stage read go past the end. */
  lemma FinalZbarReadsPastEnd(d: Dims, X: seq<Vec>, U: seq<Vec>)
    requires d.Shaped(X, U)
    ensures FinalZbarAsWritten(d, X) == None
  {
  }

  /** The n entries of the gradient d from position offset on. */
  function GradRun(g: Vec, offset: nat, n: nat): (gt: Vec)
    ensures |gt| == n
    ensures forall i :: 0 <= i < n ==> gt[i] == At(g, offset + i)
  {
    Tabulate(n, (i: nat) => At(g, offset + i))
  }

  /** The entries of the gradient d that belong to stage t. */
  function StageGrad(d: Dims, g: Vec, t: nat): (gt: Vec)
    ensures |gt| == d.Size(t)
  {
    GradRun(g, d.Offset(t), d.Size(t))
  }

  /** f[t][i] = d[index] - H[t][i]*zbar[i]: the gradient of the quadratic model
      shifted so that the expansion is taken at zbar. */
  function LinearTerm(g: Vec, h: Vec, zb: Vec): (f: Vec)
    requires |g| == |h| == |zb|
    ensures |f| == |g|
  {
    seq(|g|, i requires 0 <= i < |g| => g[i] - h[i] * zb[i])
  }

  lemma LinearTermPrefix(g: Vec, h: Vec, zb: Vec, k: nat)
    requires |g| == |h| == |zb| && k <= |g|
    ensures LinearTerm(g, h, zb)[..k] == LinearTerm(g[..k], h[..k], zb[..k])
  {
    var a, b := LinearTerm(g, h, zb)[..k], LinearTerm(g[..k], h[..k], zb[..k]);
    forall i | 0 <= i < k
      ensures a[i] == b[i]
    {
      assert g[..k][i] == g[i] && h[..k][i] == h[i] && zb[..k][i] == zb[i];
    }
  }

  /** The quadratic model of one stage, 0.5 z' diag(h) z + f' z. */
  function StageModel(h: Vec, f: Vec, z: Vec): real
    requires |h| == |z| && |f| == |z|
  {
    0.5 * DiagQuad(h, z) + Dot(f, z)
  }

  /** z - zbar */
  function Diff(z: Vec, zb: Vec): (r: Vec)
    requires |z| == |zb|
    ensures |r| == |z|
  {
    seq(|z|, i requires 0 <= i < |z| => z[i] - zb[i])
  }

  lemma TaylorPoint(h: real, g: real, zb: real, z: real)
    ensures 0.5 * (h * z * z) + (g - h * zb) * z + (0.5 * (h * zb * zb) - g * zb)
         == g * (z - zb) + 0.5 * (h * (z - zb) * (z - zb))
  {
  }

  /** With f = g - h zbar and the stage's share of the constant term,
      0.5 h zbar^2 - g zbar, the quadratic model is the second-order expansion of the
      merit around zbar: the gradient term plus the Hessian term in z - zbar. */
  lemma {:induction false} StageTaylor(g: Vec, h: Vec, zb: Vec, z: Vec)
    requires |g| == |h| == |zb| == |z|
    ensures StageModel(h, LinearTerm(g, h, zb), z) + (0.5 * DiagQuad(h, zb) - Dot(g, zb))
         == Dot(g, Diff(z, zb)) + 0.5 * DiagQuad(h, Diff(z, zb))
    decreases |z|
  {
    var n := |z|;
    if n > 0 {
      var k := n - 1;
      LinearTermPrefix(g, h, zb, k);
      assert Diff(z, zb)[..k] == Diff(z[..k], zb[..k]);
      StageTaylor(g[..k], h[..k], zb[..k], z[..k]);
      TaylorPoint(h[k], g[k], zb[k], z[k]);
    }
  }

  lemma ExpansionPoint(h: real, g: real, zb: real)
    ensures 0.5 * (h * zb * zb) + (g - h * zb) * zb + (0.5 * (h * zb * zb) - g * zb) == 0.0
  {
  }

  /** At z = zbar the stage model and the stage's share of the constant cancel. */
  lemma {:induction false} StageAtExpansion(g: Vec, h: Vec, zb: Vec)
    requires |g| == |h| == |zb|
    ensures StageModel(h, LinearTerm(g, h, zb), zb) + (0.5 * DiagQuad(h, zb) - Dot(g, zb)) == 0.0
    decreases |zb|
  {
    var n := |zb|;
    if n > 0 {
      var k := n - 1;
      LinearTermPrefix(g, h, zb, k);
      StageAtExpansion(g[..k], h[..k], zb[..k]);
      ExpansionPoint(h[k], g[k], zb[k]);
    }
  }

  /** All the expansion points, stage by stage. */
  function Expansion(d: Dims, X: seq<Vec>, U: seq<Vec>): (Z: seq<Vec>)
    requires d.Shaped(X, U)
    ensures |Z| == d.T && forall t :: 0 <= t < d.T ==> Z[t] == Zbar(d, X, U, t)
  {
    seq(d.T, t requires 0 <= t < d.T => Zbar(d, X, U, t))
  }

  /** The diagonal Hessian of every stage. */
  function Hessians(d: Dims, diaghess: Vec): (Hs: seq<Vec>)
    ensures |Hs| == d.T && forall t :: 0 <= t < d.T ==> Hs[t] == HessianStage(d, diaghess, t)
  {
    seq(d.T, t requires 0 <= t < d.T => HessianStage(d, diaghess, t))
  }

  /** The gradient entries of every stage. */
  function Grads(d: Dims, g: Vec): (Gs: seq<Vec>)
    ensures |Gs| == d.T && forall t :: 0 <= t < d.T ==> Gs[t] == StageGrad(d, g, t)
  {
    seq(d.T, t requires 0 <= t < d.T => StageGrad(d, g, t))
  }

  /** Stages of matching lengths, up to stage t. */
  predicate Matching(A: seq<Vec>, Z: seq<Vec>, t: nat)
  {
    t <= |A| && t <= |Z| && forall s :: 0 <= s < t ==> |A[s]| == |Z[s]|
  }

  /** hessian_constant after stages 0 .. t-1: the sum of H[s][i]*zbar[i]*zbar[i]. */
  function HessianConstant(H: seq<Vec>, Z: seq<Vec>, t: nat): real
    requires Matching(H, Z, t)
  {
    if t == 0 then 0.0 else HessianConstant(H, Z, t - 1) + DiagQuad(H[t - 1], Z[t - 1])
  }

  /** jac_constant after stages 0 .. t-1: minus the sum of d[index]*zbar[i]. */
  function JacConstant(G: seq<Vec>, Z: seq<Vec>, t: nat): real
    requires Matching(G, Z, t)
  {
    if t == 0 then 0.0 else JacConstant(G, Z, t - 1) - Dot(G[t - 1], Z[t - 1])
  }

  /** The quadratic model of the whole subproblem after convexification at the current
      trajectory (H, f, c) together with the cached merit and constant_cost. */
  datatype Convexification = Convexification(H: seq<Vec>, f: seq<Vec>, c: Vec, merit: real, constantCost: real)

  /** The Hessian estimate: diaghess.reset(), all zeros. */
  function ZeroHessian(d: Dims): Vec
  {
    Fill(d.Offset(d.T), 0.0)
  }

  /** What the solution_accepted branch of exploreCollocation computes. */
  function Convexify(m: ExploreModel, X: seq<Vec>, U: seq<Vec>): (cv: Convexification)
    requires m.dims.Shaped(X, U) && m.dims.T >= 1
    ensures |cv.H| == |cv.f| == m.dims.T
    ensures forall t :: 0 <= t < m.dims.T ==> |cv.H[t]| == |cv.f[t]| == m.dims.Size(t)
  {
    var d := m.dims;
    var diaghess := ZeroHessian(d);
    var g := m.gradient(X, U);
    var merit := m.entropy(X, U);
    Convexification(
      H := Hessians(d, diaghess),
      f := LinearStages(d, diaghess, g, X, U),
      c := X[0],
      merit := merit,
      constantCost := 0.5 * HessianConstant(Hessians(d, diaghess), Expansion(d, X, U), d.T)
                      + JacConstant(Grads(d, g), Expansion(d, X, U), d.T) + merit)
  }

  /** f[t] for the gradient g and the Hessian estimate diaghess at the trajectory. */
  function LinearStage(d: Dims, diaghess: Vec, g: Vec, X: seq<Vec>, U: seq<Vec>, t: nat): (f: Vec)
    requires d.Shaped(X, U) && t < d.T
    ensures |f| == d.Size(t)
  {
    LinearTerm(StageGrad(d, g, t), HessianStage(d, diaghess, t), Zbar(d, X, U, t))
  }

  /** The linear term of every stage. */
  function LinearStages(d: Dims, diaghess: Vec, g: Vec, X: seq<Vec>, U: seq<Vec>): (Fs: seq<Vec>)
    requires d.Shaped(X, U)
    ensures |Fs| == d.T && forall t :: 0 <= t < d.T ==> Fs[t] == LinearStage(d, diaghess, g, X, U, t)
  {
    seq(d.T, t requires 0 <= t < d.T => LinearStage(d, diaghess, g, X, U, t))
  }

  /** The value of the quadratic model, summed over stages 0 .. t-1. */
  function ModelUpTo(H: seq<Vec>, F: seq<Vec>, Z: seq<Vec>, t: nat): real
    requires t <= |H| && t <= |F| && t <= |Z|
    requires forall s :: 0 <= s < t ==> |H[s]| == |Z[s]| && |F[s]| == |Z[s]|
  {
    if t == 0 then 0.0 else ModelUpTo(H, F, Z, t - 1) + StageModel(H[t - 1], F[t - 1], Z[t - 1])
  }

  /** Stages 0 .. t-1 of the model at the expansion point cancel against the constants
      accumulated over the same stages. */
  lemma {:induction false} AtExpansionUpTo(G: seq<Vec>, H: seq<Vec>, F: seq<Vec>, Z: seq<Vec>, t: nat)
    requires t <= |G| && t <= |H| && t <= |F| && t <= |Z|
    requires forall s :: 0 <= s < t ==> |G[s]| == |H[s]| == |Z[s]| == |F[s]| && F[s] == LinearTerm(G[s], H[s], Z[s])
    ensures Matching(H, Z, t) && Matching(G, Z, t)
    ensures ModelUpTo(H, F, Z, t) + 0.5 * HessianConstant(H, Z, t) + JacConstant(G, Z, t) == 0.0
  {
    if t > 0 {
      var s := t - 1;
      AtExpansionUpTo(G, H, F, Z, s);
      StageAtExpansion(G[s], H[s], Z[s]);
    }
  }

  /** model_merit = optcost + constant_cost is the true merit when the subproblem's
      objective is evaluated at the expansion point: the constant term restores exactly
      what the linear term shifted away. */
  lemma ModelExactAtExpansion(m: ExploreModel, X: seq<Vec>, U: seq<Vec>)
    requires m.dims.Shaped(X, U) && m.dims.T >= 1
    ensures var cv := Convexify(m, X, U);
      ModelUpTo(cv.H, cv.f, Expansion(m.dims, X, U), m.dims.T) + cv.constantCost == cv.merit
  {
    var cv, d := Convexify(m, X, U), m.dims;
    AtExpansionUpTo(Grads(d, m.gradient(X, U)), cv.H, cv.f, Expansion(d, X, U), d.T);
  }

  lemma DiagQuadStep(h: Vec, z: Vec, i: nat, hi: real)
    requires i < |h| && i < |z| && hi == h[i]
    ensures DiagQuad(h[..i + 1], z[..i + 1]) == DiagQuad(h[..i], z[..i]) + hi * z[i] * z[i]
  {
    assert h[..i + 1][..i] == h[..i] && z[..i + 1][..i] == z[..i];
  }

  lemma DotStep(a: Vec, b: Vec, i: nat, ai: real)
    requires i < |a| && i < |b| && ai == a[i]
    ensures Dot(a[..i + 1], b[..i + 1]) == Dot(a[..i], b[..i]) + ai * b[i]
  {
    assert a[..i + 1][..i] == a[..i] && b[..i + 1][..i] == b[..i];
  }

  lemma LinearTermAt(g: Vec, h: Vec, zb: Vec, i: nat, gi: real, hi: real)
    requires |g| == |h| == |zb| && i < |zb| && gi == g[i] && hi == h[i]
    ensures LinearTerm(g, h, zb)[i] == gi - hi * zb[i]
  {
  }

  /** One stage of the gradient loop: f[t][i] = d[index] - H[t][i]*zbar[i] with both
      constants accumulated along the way; gt, hv and lt name the stage's gradient
      entries, Hessian entries and linear term. */
  method FillLinearStage(a: array<real>, h: array<real>, g: Vec, offset: nat, zb: Vec, hc0: real, jc0: real,
                         ghost gt: Vec, ghost hv: Vec, ghost lt: Vec)
    returns (hc: real, jc: real)
    requires a != h && |zb| <= a.Length && |zb| <= h.Length
    requires gt == GradRun(g, offset, |zb|) && hv == h[..|zb|] && lt == LinearTerm(gt, hv, zb)
    modifies a
    ensures forall i :: 0 <= i < |zb| ==> a[i] == lt[i]
    ensures hc == hc0 + DiagQuad(hv, zb)
    ensures jc == jc0 - Dot(gt, zb)
  {
    hc, jc := hc0, jc0;
    for i := 0 to |zb|
      invariant hc == hc0 + DiagQuad(hv[..i], zb[..i])
      invariant jc == jc0 - Dot(gt[..i], zb[..i])
      invariant forall k :: 0 <= k < i ==> a[k] == lt[k]
    {
      var hi, gi := h[i], At(g, offset + i);
      DiagQuadStep(hv, zb, i, hi);
      DotStep(gt, zb, i, gi);
      LinearTermAt(gt, hv, zb, i, gi, hi);
      hc := hc + hi * zb[i] * zb[i];
      jc := jc - gi * zb[i];
      a[i] := gi - hi * zb[i];
    }
    assert zb[..|zb|] == zb && gt[..|zb|] == gt && hv[..|zb|] == hv;
  }

  /** The gradient loops of exploreCollocation; the iteration t = T-1 is the source's
      separate final-stage block, expanded at X[T-1]. */
  method FillLinearTerm(f: seq<array<real>>, H: seq<array<real>>, d: Dims, diaghess: Vec, g: Vec, X: seq<Vec>, U: seq<Vec>)
    returns (hessianConstant: real, jacConstant: real)
    requires d.T >= 1 && d.Shaped(X, U) && |f| == d.T && |H| == d.T && Distinct(f) && Disjoint(f, H)
    requires forall t :: 0 <= t < d.T ==> d.Size(t) <= f[t].Length && d.Size(t) <= H[t].Length
    requires forall t :: 0 <= t < d.T ==> H[t][..d.Size(t)] == HessianStage(d, diaghess, t)
    modifies set t | 0 <= t < |f| :: f[t]
    ensures forall t :: 0 <= t < d.T ==>
              f[t][..d.Size(t)] == LinearStage(d, diaghess, g, X, U, t)
    ensures hessianConstant == HessianConstant(Hessians(d, diaghess), Expansion(d, X, U), d.T)
    ensures jacConstant == JacConstant(Grads(d, g), Expansion(d, X, U), d.T)
  {
    ghost var Hs, Gs, Zs := Hessians(d, diaghess), Grads(d, g), Expansion(d, X, U);
    ghost var Fs := LinearStages(d, diaghess, g, X, U);
    assert Planned(d, g, X, U, Hs, Gs, Zs, Fs);
    forall t, i | 0 <= t < d.T && 0 <= i < d.Size(t)
      ensures H[t][i] == Hs[t][i]
    {
      assert H[t][i] == H[t][..d.Size(t)][i];
    }
    hessianConstant, jacConstant := FillStages(f, H, d, g, X, U, Hs, Gs, Zs, Fs);
    forall t | 0 <= t < d.T
      ensures f[t][..d.Size(t)] == LinearStage(d, diaghess, g, X, U, t)
    {
      assert f[t][..d.Size(t)] == Fs[t];
    }
  }

  /** Hs, Gs, Zs and Fs hold, stage by stage, the Hessian entries, the gradient entries,
      the expansion point and the linear term f = g - h zbar. */
  ghost predicate Planned(d: Dims, g: Vec, X: seq<Vec>, U: seq<Vec>, Hs: seq<Vec>, Gs: seq<Vec>, Zs: seq<Vec>, Fs: seq<Vec>)
    requires d.Shaped(X, U)
  {
    && |Hs| == d.T && |Gs| == d.T && |Zs| == d.T && |Fs| == d.T
    && (forall t :: 0 <= t < d.T ==> |Hs[t]| == |Gs[t]| == |Zs[t]| == |Fs[t]| == d.Size(t))
    && (forall t :: 0 <= t < d.T ==> Zs[t] == Zbar(d, X, U, t) && Gs[t] == GradRun(g, d.Offset(t), d.Size(t)))
    && (forall t :: 0 <= t < d.T ==> Fs[t] == LinearTerm(Gs[t], Hs[t], Zs[t]))
  }

  /** The stage loop of FillLinearTerm over a planned set of stages. */
  method FillStages(f: seq<array<real>>, H: seq<array<real>>, d: Dims, g: Vec, X: seq<Vec>, U: seq<Vec>,
                    ghost Hs: seq<Vec>, ghost Gs: seq<Vec>, ghost Zs: seq<Vec>, ghost Fs: seq<Vec>)
    returns (hessianConstant: real, jacConstant: real)
    requires d.Shaped(X, U) && |f| == d.T && |H| == d.T && Distinct(f) && Disjoint(f, H)
    requires forall t :: 0 <= t < d.T ==> d.Size(t) <= f[t].Length && d.Size(t) <= H[t].Length
    requires Planned(d, g, X, U, Hs, Gs, Zs, Fs)
    requires forall t, i :: 0 <= t < d.T && 0 <= i < d.Size(t) ==> H[t][i] == Hs[t][i]
    modifies set t | 0 <= t < |f| :: f[t]
    ensures Matching(Hs, Zs, d.T) && Matching(Gs, Zs, d.T)
    ensures forall t, i :: 0 <= t < d.T && 0 <= i < d.Size(t) ==> f[t][i] == Fs[t][i]
    ensures hessianConstant == HessianConstant(Hs, Zs, d.T)
    ensures jacConstant == JacConstant(Gs, Zs, d.T)
  {
    assert Matching(Hs, Zs, d.T) && Matching(Gs, Zs, d.T);
    hessianConstant, jacConstant := 0.0, 0.0;
    var index := 0;
    for t := 0 to d.T
      invariant index == d.Offset(t)
      invariant forall s, i :: 0 <= s < t && 0 <= i < d.Size(s) ==> f[s][i] == Fs[s][i]
      invariant hessianConstant == HessianConstant(Hs, Zs, t)
      invariant jacConstant == JacConstant(Gs, Zs, t)
    {
      hessianConstant, jacConstant := FillStage(f, H, d, g, X, U, t, index, hessianConstant, jacConstant, Hs, Gs, Zs, Fs);
      OffsetStep(d, t);
      index := index + (d.SX() + d.SU());
    }
  }

  /** Stage t of the gradient loops: zbar is built from X[t] and U[t] (from X[T-1] alone
      at the last stage) and f[t] is written; the stages before t keep their values. */
  method FillStage(f: seq<array<real>>, H: seq<array<real>>, d: Dims, g: Vec, X: seq<Vec>, U: seq<Vec>,
                   t: nat, index: nat, hc0: real, jc0: real,
                   ghost Hs: seq<Vec>, ghost Gs: seq<Vec>, ghost Zs: seq<Vec>, ghost Fs: seq<Vec>)
    returns (hc: real, jc: real)
    requires d.Shaped(X, U) && |f| == d.T && |H| == d.T && Distinct(f) && Disjoint(f, H)
    requires forall s :: 0 <= s < d.T ==> d.Size(s) <= f[s].Length && d.Size(s) <= H[s].Length
    requires Planned(d, g, X, U, Hs, Gs, Zs, Fs)
    requires forall s, i :: 0 <= s < d.T && 0 <= i < d.Size(s) ==> H[s][i] == Hs[s][i]
    requires t < d.T && index == d.Offset(t)
    requires forall s, i :: 0 <= s < t && 0 <= i < d.Size(s) ==> f[s][i] == Fs[s][i]
    modifies f[t]
    ensures forall s, i :: 0 <= s <= t && 0 <= i < d.Size(s) ==> f[s][i] == Fs[s][i]
    ensures hc == hc0 + DiagQuad(Hs[t], Zs[t]) && jc == jc0 - Dot(Gs[t], Zs[t])
  {
    var zbar := Zbar(d, X, U, t);
    assert H[t][..d.Size(t)] == Hs[t];
    hc, jc := FillLinearStage(f[t], H[t], g, index, zbar, hc0, jc0, Gs[t], Hs[t], Fs[t]);
  }

  /** One H and one f buffer per stage and the buffer c of the initial state, all
      separate and large enough. */
  ghost predicate ConvexBuffers(H: seq<array<real>>, f: seq<array<real>>, c: array<real>, d: Dims)
  {
    && |H| == d.T && |f| == d.T && Distinct(H) && Distinct(f) && Disjoint(f, H)
    && c !in H && c !in f && d.SX() <= c.Length
    && forall t :: 0 <= t < d.T ==> d.Size(t) <= H[t].Length && d.Size(t) <= f[t].Length
  }

  /** The buffers hold the subproblem cv: H[t] and f[t] its stage terms, c its initial state. */
  ghost predicate Holds(H: seq<array<real>>, f: seq<array<real>>, c: array<real>, d: Dims, cv: Convexification)
    reads set t | 0 <= t < |H| :: H[t]
    reads set t | 0 <= t < |f| :: f[t]
    reads c
  {
    && |H| == |f| == |cv.H| == |cv.f| == d.T && d.SX() <= c.Length
    && (forall t :: 0 <= t < d.T ==> d.Size(t) <= H[t].Length && d.Size(t) <= f[t].Length)
    && (forall t :: 0 <= t < d.T ==> H[t][..d.Size(t)] == cv.H[t] && f[t][..d.Size(t)] == cv.f[t])
    && c[..d.SX()] == cv.c
  }

  /** The solution_accepted branch of exploreCollocation on the solver's buffers: clamp
      the Hessian estimate into H, write the linear terms into f and the initial state
      into c, and return the merit with the constant dropped from the subproblem. */
  method Relinearize(H: seq<array<real>>, f: seq<array<real>>, c: array<real>, m: ExploreModel, X: seq<Vec>, U: seq<Vec>)
    returns (merit: real, constantCost: real)
    requires m.Valid() && m.dims.Shaped(X, U) && ConvexBuffers(H, f, c, m.dims)
    modifies (set t | 0 <= t < |H| :: H[t]), (set t | 0 <= t < |f| :: f[t]), c
    ensures var cv := Convexify(m, X, U); Holds(H, f, c, m.dims, cv) && merit == cv.merit && constantCost == cv.constantCost
  {
    var d := m.dims;
    var diaghess := ZeroHessian(d);
    var g := m.gradient(X, U);
    merit := m.entropy(X, U);
    WriteVec(c, X[0]);
    var hessianConstant, jacConstant := FillSubproblem(H, f, d, diaghess, g, X, U);
    constantCost := 0.5 * hessianConstant + jacConstant + merit;
  }

  /** The Hessian and gradient loops of the solution_accepted branch: H and f receive
      the stage terms, and the two Taylor constants are accumulated. */
  method FillSubproblem(H: seq<array<real>>, f: seq<array<real>>, d: Dims, diaghess: Vec, g: Vec, X: seq<Vec>, U: seq<Vec>)
    returns (hessianConstant: real, jacConstant: real)
    requires d.T >= 1 && d.Shaped(X, U) && |H| == d.T && |f| == d.T && Distinct(H) && Distinct(f) && Disjoint(f, H)
    requires forall t :: 0 <= t < d.T ==> d.Size(t) <= H[t].Length && d.Size(t) <= f[t].Length
    modifies (set t | 0 <= t < |H| :: H[t]), (set t | 0 <= t < |f| :: f[t])
    ensures forall t :: 0 <= t < d.T ==>
              H[t][..d.Size(t)] == Hessians(d, diaghess)[t] && f[t][..d.Size(t)] == LinearStages(d, diaghess, g, X, U)[t]
    ensures hessianConstant == HessianConstant(Hessians(d, diaghess), Expansion(d, X, U), d.T)
    ensures jacConstant == JacConstant(Grads(d, g), Expansion(d, X, U), d.T)
  {
    ClampHessian(H, d, diaghess);
    hessianConstant, jacConstant := FillLinearTerm(f, H, d, diaghess, g, X, U);
  }

  // ---------------------------------------------------------------------------
  // Trust-box bounds

  /** The per-particle loops `for n < N, for i < dim: out[index++] = bound(i, v[n*stride + i])`:
      entry n*dim + i of the result bounds component i of particle n, read at stride
      `stride` from v. */
  function ParticleRun(n: nat, dim: nat, stride: nat, v: Vec, bound: Bound): (r: Vec)
    ensures |r| == n * dim
    decreases n
  {
    if n == 0 then []
    else
      var r := ParticleRun(n - 1, dim, stride, v, bound) + ParticleBounds(n - 1, dim, stride, v, bound);
      assert n * dim == (n - 1) * dim + dim;
      r
  }

  /** The dim bounds of particle p, whose components are read from v at p*stride. */
  function ParticleBounds(p: nat, dim: nat, stride: nat, v: Vec, bound: Bound): (r: Vec)
    ensures |r| == dim
    ensures forall i :: 0 <= i < dim ==> r[i] == bound.Apply(i, At(v, Index.Flat(p, i, stride)))
  {
    Tabulate(dim, (i: nat) => bound.Apply(i, At(v, Index.Flat(p, i, stride))))
  }

  /** Entry n*dim + i of a particle run bounds component i of particle p, read at
      position p*stride + i. */
  lemma {:induction false} ParticleRunAt(n: nat, dim: nat, stride: nat, v: Vec, bound: Bound, p: nat, i: nat)
    requires p < n && i < dim
    ensures Index.Flat(p, i, dim) < n * dim
    ensures ParticleRun(n, dim, stride, v, bound)[Index.Flat(p, i, dim)] == bound.Apply(i, At(v, Index.Flat(p, i, stride)))
    decreases n
  {
    Index.FlatBound(p, i, n, dim);
    var prefix := ParticleRun(n - 1, dim, stride, v, bound);
    if p < n - 1 {
      ParticleRunAt(n - 1, dim, stride, v, bound, p, i);
    } else {
      assert Index.Flat(p, i, dim) == |prefix| + i;
    }
  }

  /** The clamp of one trust-box bound: MAX(limit[i], x - eps) for a lower bound,
      MIN(limit[i], x + eps) for an upper bound. */
  datatype Bound = Lower(limit: Vec, eps: real) | Upper(limit: Vec, eps: real)
  {
    function Apply(i: nat, x: real): real
    {
      match this
      case Lower(limit, eps) => Max(At(limit, i), x - eps)
      case Upper(limit, eps) => Min(At(limit, i), x + eps)
    }
  }

  /** lb[t]: the particle states, then (before the last stage) the particle controls,
      each clamped to the global limits and the trust box around the current value. */
  function StageLower(d: Dims, lim: Limits, X: seq<Vec>, U: seq<Vec>, t: nat, xeps: real, ueps: real): (lb: Vec)
    requires d.Shaped(X, U) && t < d.T
    ensures |lb| == d.Size(t)
  {
    ParticleRun(d.N, d.xDim, d.xDim, X[t], Lower(lim.xMin, xeps))
    + (if t + 1 < d.T then ParticleRun(d.N, d.uDim, d.uDim, U[t], Lower(lim.uMin, ueps)) else [])
  }

  /** ub[t], the mirror image of lb[t]. */
  function StageUpper(d: Dims, lim: Limits, X: seq<Vec>, U: seq<Vec>, t: nat, xeps: real, ueps: real): (ub: Vec)
    requires d.Shaped(X, U) && t < d.T
    ensures |ub| == d.Size(t)
  {
    ParticleRun(d.N, d.xDim, d.xDim, X[t], Upper(lim.xMax, xeps))
    + (if t + 1 < d.T then ParticleRun(d.N, d.uDim, d.uDim, U[t], Upper(lim.uMax, ueps)) else [])
  }

  /** Entry by entry: component i of particle n is bounded by MAX(xMin[i], x - Xeps) and
      MIN(xMax[i], x + Xeps). */
  lemma StateBounds(d: Dims, lim: Limits, X: seq<Vec>, U: seq<Vec>, t: nat, xeps: real, ueps: real, n: nat, i: nat)
    requires d.Shaped(X, U) && t < d.T && n < d.N && i < d.xDim
    ensures Index.Flat(n, i, d.xDim) < d.SX()
    ensures StageLower(d, lim, X, U, t, xeps, ueps)[Index.Flat(n, i, d.xDim)]
         == Max(At(lim.xMin, i), X[t][Index.Flat(n, i, d.xDim)] - xeps)
    ensures StageUpper(d, lim, X, U, t, xeps, ueps)[Index.Flat(n, i, d.xDim)]
         == Min(At(lim.xMax, i), X[t][Index.Flat(n, i, d.xDim)] + xeps)
  {
    var k := Index.Flat(n, i, d.xDim);
    var lo, hi := Lower(lim.xMin, xeps), Upper(lim.xMax, xeps);
    ParticleRunAt(d.N, d.xDim, d.xDim, X[t], lo, n, i);
    ParticleRunAt(d.N, d.xDim, d.xDim, X[t], hi, n, i);
    assert StageLower(d, lim, X, U, t, xeps, ueps)[k] == ParticleRun(d.N, d.xDim, d.xDim, X[t], lo)[k];
    assert StageUpper(d, lim, X, U, t, xeps, ueps)[k] == ParticleRun(d.N, d.xDim, d.xDim, X[t], hi)[k];
  }

  /** The controls of stage t < T-1 follow the states: component i of particle n is
      bounded by MAX(uMin[i], u - Ueps) and MIN(uMax[i], u + Ueps). */
  lemma ControlBounds(d: Dims, lim: Limits, X: seq<Vec>, U: seq<Vec>, t: nat, xeps: real, ueps: real, n: nat, i: nat)
    requires d.Shaped(X, U) && t + 1 < d.T && n < d.N && i < d.uDim
    ensures Index.Flat(n, i, d.uDim) < d.SU()
    ensures StageLower(d, lim, X, U, t, xeps, ueps)[d.SX() + Index.Flat(n, i, d.uDim)]
         == Max(At(lim.uMin, i), U[t][Index.Flat(n, i, d.uDim)] - ueps)
    ensures StageUpper(d, lim, X, U, t, xeps, ueps)[d.SX() + Index.Flat(n, i, d.uDim)]
         == Min(At(lim.uMax, i), U[t][Index.Flat(n, i, d.uDim)] + ueps)
  {
    var k := Index.Flat(n, i, d.uDim);
    var lo, hi := Lower(lim.uMin, ueps), Upper(lim.uMax, ueps);
    ParticleRunAt(d.N, d.uDim, d.uDim, U[t], lo, n, i);
    ParticleRunAt(d.N, d.uDim, d.uDim, U[t], hi, n, i);
    var sl, su := ParticleRun(d.N, d.xDim, d.xDim, X[t], Lower(lim.xMin, xeps)), ParticleRun(d.N, d.xDim, d.xDim, X[t], Upper(lim.xMax, xeps));
    var cl, cu := ParticleRun(d.N, d.uDim, d.uDim, U[t], lo), ParticleRun(d.N, d.uDim, d.uDim, U[t], hi);
    assert StageLower(d, lim, X, U, t, xeps, ueps) == sl + cl;
    assert StageUpper(d, lim, X, U, t, xeps, ueps) == su + cu;
    assert (sl + cl)[d.SX() + k] == cl[k];
    assert (su + cu)[d.SX() + k] == cu[k];
  }

  /** State entry k of the bounds of stage t: component k % X_DIM of the limits and the
      trust box around the expansion point. */
  lemma StateEntry(d: Dims, lim: Limits, X: seq<Vec>, U: seq<Vec>, t: nat, xeps: real, ueps: real, k: nat)
    requires d.Shaped(X, U) && t < d.T && k < d.SX()
    ensures d.xDim > 0
    ensures StageLower(d, lim, X, U, t, xeps, ueps)[k] == Max(At(lim.xMin, k % d.xDim), Zbar(d, X, U, t)[k] - xeps)
    ensures StageUpper(d, lim, X, U, t, xeps, ueps)[k] == Min(At(lim.xMax, k % d.xDim), Zbar(d, X, U, t)[k] + xeps)
  {
    Index.Split(k, d.N, d.xDim);
    var n, i := k / d.xDim, k % d.xDim;
    StateBounds(d, lim, X, U, t, xeps, ueps, n, i);
    assert Index.Flat(n, i, d.xDim) == k;
    assert Zbar(d, X, U, t)[k] == X[t][k];
  }

  /** Control entry k of the bounds of stage t < T-1: component (k - N*X_DIM) % U_DIM of
      the limits and the trust box around the expansion point. */
  lemma ControlEntry(d: Dims, lim: Limits, X: seq<Vec>, U: seq<Vec>, t: nat, xeps: real, ueps: real, k: nat)
    requires d.Shaped(X, U) && t + 1 < d.T && d.SX() <= k < d.Size(t)
    ensures d.uDim > 0
    ensures StageLower(d, lim, X, U, t, xeps, ueps)[k] == Max(At(lim.uMin, (k - d.SX()) % d.uDim), Zbar(d, X, U, t)[k] - ueps)
    ensures StageUpper(d, lim, X, U, t, xeps, ueps)[k] == Min(At(lim.uMax, (k - d.SX()) % d.uDim), Zbar(d, X, U, t)[k] + ueps)
  {
    var j := k - d.SX();
    Index.Split(j, d.N, d.uDim);
    var n, i := j / d.uDim, j % d.uDim;
    ControlBounds(d, lim, X, U, t, xeps, ueps, n, i);
    assert Index.Flat(n, i, d.uDim) == j;
    assert Zbar(d, X, U, t)[k] == U[t][j];
  }

  /** Any point inside the bounds of stage t stays within the half-widths of the
      expansion point and within the global limits. */
  lemma StageBoxSound(d: Dims, lim: Limits, X: seq<Vec>, U: seq<Vec>, t: nat, xeps: real, ueps: real, z: Vec)
    requires d.Shaped(X, U) && t < d.T && |z| == d.Size(t)
    requires forall k :: 0 <= k < |z| ==>
               StageLower(d, lim, X, U, t, xeps, ueps)[k] <= z[k] <= StageUpper(d, lim, X, U, t, xeps, ueps)[k]
    ensures forall k :: 0 <= k < d.SX() ==>
              Abs(z[k] - Zbar(d, X, U, t)[k]) <= xeps && At(lim.xMin, k % d.xDim) <= z[k] <= At(lim.xMax, k % d.xDim)
    ensures forall k :: d.SX() <= k < |z| ==>
              Abs(z[k] - Zbar(d, X, U, t)[k]) <= ueps
              && At(lim.uMin, (k - d.SX()) % d.uDim) <= z[k] <= At(lim.uMax, (k - d.SX()) % d.uDim)
  {
    forall k | 0 <= k < |z|
      ensures k < d.SX() ==>
                Abs(z[k] - Zbar(d, X, U, t)[k]) <= xeps && At(lim.xMin, k % d.xDim) <= z[k] <= At(lim.xMax, k % d.xDim)
      ensures d.SX() <= k ==>
                Abs(z[k] - Zbar(d, X, U, t)[k]) <= ueps
                && At(lim.uMin, (k - d.SX()) % d.uDim) <= z[k] <= At(lim.uMax, (k - d.SX()) % d.uDim)
    {
      if k < d.SX() {
        StateEntry(d, lim, X, U, t, xeps, ueps, k);
      } else {
        ControlEntry(d, lim, X, U, t, xeps, ueps, k);
      }
    }
  }

  /** The expansion point lies inside its own bounds whenever it is within the global
      limits and both half-widths are non-negative, so the subproblem is feasible. */
  lemma StageBoxContainsExpansion(d: Dims, lim: Limits, X: seq<Vec>, U: seq<Vec>, t: nat, xeps: real, ueps: real)
    requires d.Shaped(X, U) && t < d.T && xeps >= 0.0 && ueps >= 0.0
    requires forall k :: 0 <= k < d.SX() ==> At(lim.xMin, k % d.xDim) <= X[t][k] <= At(lim.xMax, k % d.xDim)
    requires t + 1 < d.T ==>
               forall k :: 0 <= k < d.SU() ==> At(lim.uMin, k % d.uDim) <= U[t][k] <= At(lim.uMax, k % d.uDim)
    ensures forall k :: 0 <= k < d.Size(t) ==>
              StageLower(d, lim, X, U, t, xeps, ueps)[k] <= Zbar(d, X, U, t)[k] <= StageUpper(d, lim, X, U, t, xeps, ueps)[k]
  {
    forall k | 0 <= k < d.Size(t)
      ensures StageLower(d, lim, X, U, t, xeps, ueps)[k] <= Zbar(d, X, U, t)[k] <= StageUpper(d, lim, X, U, t, xeps, ueps)[k]
    {
      if k < d.SX() {
        StateEntry(d, lim, X, U, t, xeps, ueps, k);
        assert Zbar(d, X, U, t)[k] == X[t][k];
      } else {
        ControlEntry(d, lim, X, U, t, xeps, ueps, k);
        assert Zbar(d, X, U, t)[k] == U[t][k - d.SX()];
      }
    }
  }

  /** The particle loops for one family: for n < N, for i < dim, the lower and the
      upper bound of component i of particle n go to lb[index] and ub[index], index++. */
  method FillParticleBounds(lb: array<real>, ub: array<real>, start: nat, n: nat, dim: nat, stride: nat, v: Vec,
                            lo: Bound, hi: Bound) returns (next: nat)
    requires lb != ub && start + n * dim <= lb.Length && start + n * dim <= ub.Length
    modifies lb, ub
    ensures next == start + n * dim
    ensures forall k :: start <= k < next ==> lb[k] == ParticleRun(n, dim, stride, v, lo)[k - start]
    ensures forall k :: start <= k < next ==> ub[k] == ParticleRun(n, dim, stride, v, hi)[k - start]
    ensures forall k :: 0 <= k < start ==> lb[k] == old(lb[k]) && ub[k] == old(ub[k])
  {
    next := start;
    ghost var lows, highs := [], [];
    for p := 0 to n
      invariant lows == ParticleRun(p, dim, stride, v, lo) && highs == ParticleRun(p, dim, stride, v, hi)
      invariant next == start + p * dim && p * dim <= n * dim
      invariant forall k :: start <= k < next ==> lb[k] == lows[k - start] && ub[k] == highs[k - start]
      invariant forall k :: 0 <= k < start ==> lb[k] == old(lb[k]) && ub[k] == old(ub[k])
    {
      MulStep(p, n, dim);
      next := FillParticle(lb, ub, start, next, p, dim, stride, v, lo, hi, lows, highs);
      lows, highs := lows + ParticleBounds(p, dim, stride, v, lo), highs + ParticleBounds(p, dim, stride, v, hi);
    }
  }

  lemma MulStep(p: nat, n: nat, dim: nat)
    requires p < n
    ensures (p + 1) * dim == p * dim + dim <= n * dim
  {
  }

  /** The inner loop for particle p: its dim lower and upper bounds from index base on,
      after the runs lows and highs of the particles before it. */
  method FillParticle(lb: array<real>, ub: array<real>, start: nat, base: nat, p: nat, dim: nat, stride: nat, v: Vec,
                      lo: Bound, hi: Bound, ghost lows: Vec, ghost highs: Vec) returns (next: nat)
    requires lb != ub && base + dim <= lb.Length && base + dim <= ub.Length
    requires base == start + |lows| && |lows| == |highs|
    requires forall k :: start <= k < base ==> lb[k] == lows[k - start] && ub[k] == highs[k - start]
    modifies lb, ub
    ensures next == base + dim
    ensures forall k :: start <= k < next ==>
              lb[k] == (lows + ParticleBounds(p, dim, stride, v, lo))[k - start]
              && ub[k] == (highs + ParticleBounds(p, dim, stride, v, hi))[k - start]
    ensures forall k :: 0 <= k < start ==> lb[k] == old(lb[k]) && ub[k] == old(ub[k])
  {
    ghost var lows', highs' := lows + ParticleBounds(p, dim, stride, v, lo), highs + ParticleBounds(p, dim, stride, v, hi);
    next := base;
    for i := 0 to dim
      invariant next == base + i
      invariant forall k :: start <= k < next ==> lb[k] == lows'[k - start] && ub[k] == highs'[k - start]
      invariant forall k :: 0 <= k < start ==> lb[k] == old(lb[k]) && ub[k] == old(ub[k])
    {
      var x := At(v, Index.Flat(p, i, stride));
      lb[next] := lo.Apply(i, x);
      ub[next] := hi.Apply(i, x);
      next := next + 1;
    }
  }

  /** The bound loops of exploreCollocation for one stage: the particle states, then
      (before the last stage) the particle controls. */
  method FillStageBounds(lb: array<real>, ub: array<real>, d: Dims, lim: Limits, X: seq<Vec>, U: seq<Vec>,
                         t: nat, xeps: real, ueps: real)
    requires d.Shaped(X, U) && t < d.T
    requires lb != ub && d.Size(t) <= lb.Length && d.Size(t) <= ub.Length
    modifies lb, ub
    ensures lb[..d.Size(t)] == StageLower(d, lim, X, U, t, xeps, ueps)
    ensures ub[..d.Size(t)] == StageUpper(d, lim, X, U, t, xeps, ueps)
  {
    var index := FillParticleBounds(lb, ub, 0, d.N, d.xDim, d.xDim, X[t], Lower(lim.xMin, xeps), Upper(lim.xMax, xeps));
    ghost var lower, upper := StageLower(d, lim, X, U, t, xeps, ueps), StageUpper(d, lim, X, U, t, xeps, ueps);
    if t + 1 < d.T {
      index := FillParticleBounds(lb, ub, index, d.N, d.uDim, d.uDim, U[t], Lower(lim.uMin, ueps), Upper(lim.uMax, ueps));
    }
    forall k | 0 <= k < d.Size(t) ensures lb[k] == lower[k] && ub[k] == upper[k] {
    }
    assert lb[..d.Size(t)] == lower;
    assert ub[..d.Size(t)] == upper;
  }

  /** All the trust-box bounds of one iteration of exploreCollocation. */
  method SetTrustBounds(lb: seq<array<real>>, ub: seq<array<real>>, d: Dims, lim: Limits, X: seq<Vec>, U: seq<Vec>,
                        xeps: real, ueps: real)
    requires d.Shaped(X, U) && |lb| == d.T && |ub| == d.T
    requires Distinct(lb) && Distinct(ub) && Disjoint(lb, ub)
    requires forall t :: 0 <= t < d.T ==> d.Size(t) <= lb[t].Length && d.Size(t) <= ub[t].Length
    modifies (set t | 0 <= t < |lb| :: lb[t]), (set t | 0 <= t < |ub| :: ub[t])
    ensures forall t :: 0 <= t < d.T ==>
              lb[t][..d.Size(t)] == StageLower(d, lim, X, U, t, xeps, ueps)
              && ub[t][..d.Size(t)] == StageUpper(d, lim, X, U, t, xeps, ueps)
  {
    for t := 0 to d.T
      invariant forall s :: 0 <= s < t ==>
                  lb[s][..d.Size(s)] == StageLower(d, lim, X, U, s, xeps, ueps)
                  && ub[s][..d.Size(s)] == StageUpper(d, lim, X, U, s, xeps, ueps)
    {
      FillStageBounds(lb[t], ub[t], d, lim, X, U, t, xeps, ueps);
    }
  }

  /** Every read n*stride + i of a run over n particles of dim components lies in a
      vector of length len. */
  predicate ReadsInRange(n: nat, dim: nat, stride: nat, len: nat)
  {
    n == 0 || dim == 0 || Index.Flat(n - 1, dim - 1, stride) < len
  }

  /** The control lower bounds as the source writes them, MAX(uMin[i], U[t][n*X_DIM+i] - Ueps):
      the controls are read at the state stride. None stands for a read past the end of U[t]. */
  function ControlLowerAsWritten(d: Dims, lim: Limits, u: Vec, ueps: real): Option<Vec>
  {
    if ReadsInRange(d.N, d.uDim, d.xDim, |u|) then Some(ParticleRun(d.N, d.uDim, d.xDim, u, Lower(lim.uMin, ueps)))
    else None
  }

  /** With X_DIM = 3, U_DIM = 2 and two particles, the last read U[t][4] is past the end
      of the four controls. */
  lemma ControlStrideOverrun(lim: Limits, u: Vec, ueps: real)
    requires |u| == Dims(2, 2, 3, 2).SU()
    ensures ControlLowerAsWritten(Dims(2, 2, 3, 2), lim, u, ueps) == None
  {
  }

  /** With X_DIM = 2, U_DIM = 3 and two particles every read is in range, but the bound on
      the first control of the second particle is taken from the third control of the
      first instead of from its own. */
  lemma ControlStrideMisread()
    ensures var d, lim := Dims(2, 2, 2, 3), Limits([], [], [-1.0, -1.0, -1.0], []);
      var u := [0.0, 0.0, 0.0, 1.0, 0.0, 0.0];
      && ControlLowerAsWritten(d, lim, u, 0.0).Some?
      && ControlLowerAsWritten(d, lim, u, 0.0).value[3] == 0.0
      && ParticleRun(d.N, d.uDim, d.uDim, u, Lower(lim.uMin, 0.0))[3] == 1.0
  {
    var lim := Limits([], [], [-1.0, -1.0, -1.0], []);
    var u := [0.0, 0.0, 0.0, 1.0, 0.0, 0.0];
    ParticleRunAt(2, 3, 2, u, Lower(lim.uMin, 0.0), 1, 0);
    ParticleRunAt(2, 3, 3, u, Lower(lim.uMin, 0.0), 1, 0);
  }

  /** When X_DIM = U_DIM the two strides coincide and the source's bounds are the
      intended ones. */
  lemma ControlStrideLatent(d: Dims, lim: Limits, X: seq<Vec>, U: seq<Vec>, t: nat, xeps: real, ueps: real)
    requires d.Shaped(X, U) && t + 1 < d.T && d.xDim == d.uDim
    ensures ControlLowerAsWritten(d, lim, U[t], ueps) == Some(StageLower(d, lim, X, U, t, xeps, ueps)[d.SX()..])
  {
    if d.N > 0 && d.uDim > 0 {
      Index.FlatBound(d.N - 1, d.uDim - 1, d.N, d.uDim);
    }
    var lb := StageLower(d, lim, X, U, t, xeps, ueps);
    assert lb[d.SX()..] == ParticleRun(d.N, d.uDim, d.uDim, U[t], Lower(lim.uMin, ueps));
  }
}
