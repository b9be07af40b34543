/** The set-up around exploreCollocation: the INFTY sentinels written into every solver
    buffer before the first solve, the check that no input still holds a sentinel, and
    the initial trajectory the loop starts from. */
module ExploreSetup {
  import opened Common
  import Index
  import opened Buffers
  import opened Explore

  // ---------------------------------------------------------------------------
  // Sentinels and the input check

  /** Every used entry of every stage buffer equals v. */
  ghost predicate Sentinelled(bufs: seq<array<real>>, d: Dims, v: real)
    reads set t | 0 <= t < |bufs| :: bufs[t]
  {
    && |bufs| == d.T
    && forall t :: 0 <= t < d.T ==> d.Size(t) <= bufs[t].Length && forall i :: 0 <= i < d.Size(t) ==> bufs[t][i] == v
  }

  /** No used entry of any stage buffer exceeds limit. */
  ghost predicate Below(bufs: seq<array<real>>, d: Dims, limit: real)
    reads set t | 0 <= t < |bufs| :: bufs[t]
  {
    && |bufs| == d.T
    && forall t :: 0 <= t < d.T ==> d.Size(t) <= bufs[t].Length && forall i :: 0 <= i < d.Size(t) ==> bufs[t][i] <= limit
  }

  /** T stage buffers, each large enough for its stage. */
  predicate StageBuffers(bufs: seq<array<real>>, d: Dims)
  {
    |bufs| == d.T && forall t :: 0 <= t < d.T ==> d.Size(t) <= bufs[t].Length
  }

  /** H, f, lb, ub and the output z: five families of separate stage buffers, and the
      buffer c of the initial state. */
  ghost predicate SolverBuffers(H: seq<array<real>>, f: seq<array<real>>, lb: seq<array<real>>, ub: seq<array<real>>,
                                z: seq<array<real>>, c: array<real>, d: Dims)
  {
    && StageBuffers(H, d) && StageBuffers(f, d) && StageBuffers(lb, d) && StageBuffers(ub, d) && StageBuffers(z, d)
    && Distinct(H) && Distinct(f) && Distinct(lb) && Distinct(ub) && Distinct(z)
    && Disjoint(H, f) && Disjoint(H, lb) && Disjoint(H, ub) && Disjoint(H, z)
    && Disjoint(f, lb) && Disjoint(f, ub) && Disjoint(f, z)
    && Disjoint(lb, ub) && Disjoint(lb, z) && Disjoint(ub, z)
    && c !in H && c !in f && c !in lb && c !in ub && c !in z && d.SX() <= c.Length
  }

  /** The sentinel loops of one buffer family: every used entry of every stage set to v. */
  method FillFamily(bufs: seq<array<real>>, d: Dims, v: real)
    requires StageBuffers(bufs, d) && Distinct(bufs)
    modifies set t | 0 <= t < |bufs| :: bufs[t]
    ensures forall t, i :: 0 <= t < d.T && 0 <= i < d.Size(t) ==> bufs[t][i] == v
  {
    for t := 0 to d.T
      invariant forall s :: 0 <= s < t ==> forall i :: 0 <= i < d.Size(s) ==> bufs[s][i] == v
    {
      var next := WriteRun(bufs[t], 0, d.Size(t), _ => v);
    }
  }

  /** setupMPCVars: every entry the solver reads or writes starts as INFTY. The source
      walks the five families stage by stage; they are separate buffers, so filling
      them family by family leaves the same contents. */
  method SetupMPCVars(H: seq<array<real>>, f: seq<array<real>>, lb: seq<array<real>>, ub: seq<array<real>>,
                      z: seq<array<real>>, c: array<real>, d: Dims, infty: real)
    requires SolverBuffers(H, f, lb, ub, z, c, d)
    modifies Footprint(H), Footprint(f), Footprint(lb), Footprint(ub), Footprint(z), c
    ensures Sentinelled(H, d, infty) && Sentinelled(f, d, infty) && Sentinelled(lb, d, infty)
    ensures Sentinelled(ub, d, infty) && Sentinelled(z, d, infty)
    ensures forall i :: 0 <= i < d.SX() ==> c[i] == infty
  {
    var next := WriteRun(c, 0, d.SX(), _ => infty);
    FillPair(H, f, d, infty);
    FillPair(lb, ub, d, infty);
    FillFamily(z, d, infty);
  }

  /** The sentinel loops of two separate families. */
  method FillPair(A: seq<array<real>>, B: seq<array<real>>, d: Dims, v: real)
    requires StageBuffers(A, d) && StageBuffers(B, d) && Distinct(A) && Distinct(B) && Disjoint(A, B)
    modifies Footprint(A), Footprint(B)
    ensures forall t, i :: 0 <= t < d.T && 0 <= i < d.Size(t) ==> A[t][i] == v && B[t][i] == v
  {
    FillFamily(A, d, v);
    FillFamily(B, d, v);
  }

  /** The loops of one family in isValidInputs: true iff no used entry exceeds limit. */
  method FamilyBelow(bufs: seq<array<real>>, d: Dims, limit: real) returns (ok: bool)
    requires StageBuffers(bufs, d)
    ensures ok <==> Below(bufs, d, limit)
  {
    for t := 0 to d.T
      invariant forall s :: 0 <= s < t ==> forall i :: 0 <= i < d.Size(s) ==> bufs[s][i] <= limit
    {
      for i := 0 to d.Size(t)
        invariant forall j :: 0 <= j < i ==> bufs[t][j] <= limit
      {
        if bufs[t][i] > limit {
          return false;
        }
      }
    }
    return true;
  }

  /** The checking half of isValidInputs: true iff no entry of H, f, lb, ub or c exceeds
      INFTY/2 (z, the output, is not checked). */
  method IsValidInputs(H: seq<array<real>>, f: seq<array<real>>, lb: seq<array<real>>, ub: seq<array<real>>,
                       c: array<real>, d: Dims, infty: real) returns (ok: bool)
    requires StageBuffers(H, d) && StageBuffers(f, d) && StageBuffers(lb, d) && StageBuffers(ub, d)
    requires d.SX() <= c.Length
    ensures ok <==> ValidInputs(H, f, lb, ub, c, d, infty)
  {
    var limit := infty / 2.0;
    ok := FamilyBelow(H, d, limit);
    if ok { ok := FamilyBelow(f, d, limit); }
    if ok { ok := FamilyBelow(lb, d, limit); }
    if ok { ok := FamilyBelow(ub, d, limit); }
    if ok {
      for i := 0 to d.SX()
        invariant forall j :: 0 <= j < i ==> c[j] <= limit
      {
        if c[i] > limit {
          return false;
        }
      }
    }
  }

  /** What isValidInputs accepts. */
  ghost predicate ValidInputs(H: seq<array<real>>, f: seq<array<real>>, lb: seq<array<real>>, ub: seq<array<real>>,
                              c: array<real>, d: Dims, infty: real)
    reads Footprint(H), Footprint(f), Footprint(lb), Footprint(ub), c
  {
    && Below(H, d, infty / 2.0) && Below(f, d, infty / 2.0) && Below(lb, d, infty / 2.0) && Below(ub, d, infty / 2.0)
    && d.SX() <= c.Length && forall i :: 0 <= i < d.SX() ==> c[i] <= infty / 2.0
  }

  /** Straight after setupMPCVars the check fails: a sentinel INFTY > 0 exceeds INFTY/2,
      and there is at least one used entry. */
  lemma SentinelsFailCheck(H: seq<array<real>>, f: seq<array<real>>, lb: seq<array<real>>, ub: seq<array<real>>,
                           c: array<real>, d: Dims, infty: real)
    requires infty > 0.0 && d.T >= 1 && d.Size(0) > 0
    requires Sentinelled(H, d, infty)
    ensures !ValidInputs(H, f, lb, ub, c, d, infty)
  {
    assert H[0][0] == infty > infty / 2.0;
  }

  // ---------------------------------------------------------------------------
  // initialize_trajectory

  /** How initialize_trajectory chooses the control: towards the mean particle, the
      commented-out "furthest heaviest particle" branch, or zero. */
  datatype Init = TowardsMean | Heaviest | Zero

  /** The mean of the first M particles, (1/M) * P[0] + ... + (1/M) * P[M-1], entry by
      entry. M is the particle count the program is built with, not the length of the
      list it is given: main passes all M_FULL = 1000 particles, of which only the first
      M are averaged. */
  function MeanParticle(P: seq<Vec>, M: nat, xDim: nat): (avg: Vec)
    requires 0 < M <= |P|
    ensures |avg| == xDim
  {
    Tabulate(xDim, (i: nat) => WeightedSum(P[..M], i, 1.0 / (M as real)))
  }

  /** w * P[0][i] + ... + w * P[|P|-1][i], accumulated from the front. */
  function WeightedSum(P: seq<Vec>, i: nat, w: real): real
  {
    if |P| == 0 then 0.0 else WeightedSum(P[..|P| - 1], i, w) + w * At(P[|P| - 1], i)
  }

  /** The weighted sum of equal particles is the particle times the total weight. */
  lemma {:induction false} WeightedSumConstant(P: seq<Vec>, i: nat, w: real, x: real)
    requires forall m :: 0 <= m < |P| ==> At(P[m], i) == x
    ensures WeightedSum(P, i, w) == (|P| as real) * w * x
    decreases |P|
  {
    if |P| > 0 {
      WeightedSumConstant(P[..|P| - 1], i, w, x);
    }
  }

  /** When the first M particles agree on entry i, so does their mean. */
  lemma MeanOfAgreeing(P: seq<Vec>, M: nat, xDim: nat, i: nat, x: real)
    requires 0 < M <= |P| && i < xDim
    requires forall m :: 0 <= m < M ==> At(P[m], i) == x
    ensures MeanParticle(P, M, xDim)[i] == x
  {
    var w := 1.0 / (M as real);
    WeightedSumConstant(P[..M], i, w, x);
    assert (M as real) * w == 1.0;
  }

  /** uinit before clamping. For TowardsMean: the mean particle repeated for every robot,
      minus x0, divided by DT*(T-1) (the source assigns an N*X_DIM vector to the
      N*U_DIM control, which type-checks because X_DIM == U_DIM there; entries past
      N*X_DIM read as 0). Heaviest leaves the matrix as constructed: `unset`. */
  function RawControl(d: Dims, kind: Init, P: seq<Vec>, M: nat, x0: Vec, dt: real, unset: Vec): (u: Vec)
    requires d.T >= 2 && dt > 0.0 && (kind == TowardsMean ==> 0 < M <= |P|)
    ensures |u| == d.SU()
  {
    match kind
    case TowardsMean =>
      var avg := MeanParticle(P, M, d.xDim);
      var rep := Tabulate(d.SX(), (k: nat) => At(avg, if d.xDim == 0 then 0 else k % d.xDim));
      Tabulate(d.SU(), (k: nat) => (At(rep, k) - At(x0, k)) / (dt * (d.T as real - 1.0)))
    case Heaviest => Tabulate(d.SU(), (k: nat) => At(unset, k))
    case Zero => Fill(d.SU(), 0.0)
  }

  /** The two clamps of the source in their order: first down to hi, then up to lo. */
  function ClampControl(v: real, lo: real, hi: real): (r: real)
    ensures lo <= hi ==> lo <= r <= hi
    ensures lo <= v <= hi ==> r == v
    ensures r == v || r == lo || r == hi
  {
    var below := if v > hi then hi else v;
    if below < lo then lo else below
  }

  /** Entry k of uinit after clamping: it is component k % U_DIM of its particle. */
  function Clamped(u0: Vec, d: Dims, lim: Limits, k: nat): real
    requires k < |u0| && d.uDim > 0
  {
    ClampControl(u0[k], At(lim.uMin, k % d.uDim), At(lim.uMax, k % d.uDim))
  }

  /** The clamping loops over n < N, i < U_DIM on uinit[n*U_DIM + i]. */
  method ClampControls(u0: Vec, d: Dims, lim: Limits) returns (u: Vec)
    requires |u0| == d.SU() && d.uDim > 0
    ensures |u| == d.SU()
    ensures forall k :: 0 <= k < d.SU() ==> u[k] == Clamped(u0, d, lim, k)
  {
    u := u0;
    for n := 0 to d.N
      invariant |u| == d.SU()
      invariant forall k :: 0 <= k < n * d.uDim ==> u[k] == Clamped(u0, d, lim, k)
      invariant forall k :: n * d.uDim <= k < d.SU() ==> u[k] == u0[k]
    {
      Index.FlatBound(n, d.uDim - 1, d.N, d.uDim);
      u := ClampParticle(u, u0, d, lim, n);
      assert (n + 1) * d.uDim == n * d.uDim + d.uDim;
    }
  }

  /** The inner loop for particle n: its U_DIM entries are clamped, the others keep
      their values. */
  method ClampParticle(u1: Vec, ghost u0: Vec, d: Dims, lim: Limits, n: nat) returns (u: Vec)
    requires |u1| == |u0| == d.SU() && d.uDim > 0 && n * d.uDim + d.uDim <= d.SU()
    requires forall k :: n * d.uDim <= k < n * d.uDim + d.uDim ==> u1[k] == u0[k]
    ensures |u| == d.SU()
    ensures forall k :: n * d.uDim <= k < n * d.uDim + d.uDim ==> u[k] == Clamped(u0, d, lim, k)
    ensures forall k :: 0 <= k < d.SU() && !(n * d.uDim <= k < n * d.uDim + d.uDim) ==> u[k] == u1[k]
  {
    u := u1;
    for i := 0 to d.uDim
      invariant |u| == d.SU()
      invariant forall k :: n * d.uDim <= k < n * d.uDim + i ==> u[k] == Clamped(u0, d, lim, k)
      invariant forall k :: 0 <= k < d.SU() && !(n * d.uDim <= k < n * d.uDim + i) ==> u[k] == u1[k]
    {
      var k := Index.Flat(n, i, d.uDim);
      Index.DivModUnique(n, i, d.uDim);
      var v := if u[k] > At(lim.uMax, i) then At(lim.uMax, i) else u[k];
      v := if v < At(lim.uMin, i) then At(lim.uMin, i) else v;
      u := u[k := v];
    }
  }

  /** initialize_trajectory: the clamped control is applied at every stage and the states
      follow the dynamics from x0. */
  method InitializeTrajectory(d: Dims, lim: Limits, kind: Init, P: seq<Vec>, M: nat, x0: Vec, dt: real, unset: Vec,
                              dynfunc: (Vec, Vec) -> Vec)
    returns (X: seq<Vec>, U: seq<Vec>)
    requires d.T >= 2 && d.uDim > 0 && dt > 0.0 && |x0| == d.SX() && (kind == TowardsMean ==> 0 < M <= |P|)
    requires forall x, u :: |dynfunc(x, u)| == d.SX()
    ensures d.Shaped(X, U)
    ensures X[0] == x0
    ensures forall t :: 0 <= t < d.T - 1 ==> U[t] == U[0] && X[t + 1] == dynfunc(X[t], U[t])
    ensures forall t, k :: 0 <= t < d.T - 1 && 0 <= k < d.SU() ==>
              U[t][k] == Clamped(RawControl(d, kind, P, M, x0, dt, unset), d, lim, k)
  {
    var uinit := RawControl(d, kind, P, M, x0, dt, unset);
    uinit := ClampControls(uinit, d, lim);
    X, U := [x0], [];
    for t := 0 to d.T - 1
      invariant |X| == t + 1 && |U| == t && X[0] == x0
      invariant forall s :: 0 <= s <= t ==> |X[s]| == d.SX()
      invariant forall s :: 0 <= s < t ==> U[s] == uinit && X[s + 1] == dynfunc(X[s], U[s])
    {
      U := U + [uinit];
      X := X + [dynfunc(X[t], U[t])];
    }
  }
}
