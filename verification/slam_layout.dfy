/** The convex subproblem that the belief-space penalty planner hands to its generated
    QP solver. Stage t < T-1 has W = 3*B_DIM + U_DIM variables: the belief b (the mean
    x, X_DIM entries, then the packed square-root covariance, S_DIM entries), the
    control u, and two non-negative slacks s+ and s- per belief entry that carry the L1
    dynamics-violation penalty. The last stage holds only the belief. Each layout is a
    function; the fill loops of the source are methods proved to write exactly it. */
module SlamLayout {
  import opened Common
  import Index
  import opened Buffers

  /** Problem dimensions (compile-time constants of the source). */
  datatype Dims = Dims(T: nat, xDim: nat, sDim: nat, uDim: nat)
  {
    /** B_DIM */
    function B(): nat { xDim + sDim }
    /** variables of a stage t < T-1 */
    function W(): nat { 3 * B() + uDim }
  }

  // ---------------------------------------------------------------------------
  // Column-major packing (fillCol, fillColMajor)

  /** The column-major storage of a row-major R x C matrix M: column c, row r of M
      goes to position c*R + r. */
  function ColMajor(M: seq<real>, R: nat, C: nat): (out: seq<real>)
    requires R > 0 && |M| == R * C
    ensures |out| == R * C
  {
    seq(R * C, k requires 0 <= k < R * C =>
      Index.Split(k, C, R);
      Index.FlatBound(k % R, k / R, R, C);
      M[(k % R) * C + k / R])
  }

  lemma ColMajorAt(M: seq<real>, R: nat, C: nat, r: nat, c: nat)
    requires R > 0 && |M| == R * C && r < R && c < C
    ensures 0 <= c * R + r < R * C && 0 <= r * C + c < R * C
    ensures ColMajor(M, R, C)[c * R + r] == M[r * C + c]
  {
    Index.FlatBound(c, r, C, R);
    Index.FlatBound(r, c, R, C);
    Index.DivModUnique(c, r, R);
  }

  /** Packing is a transpose of the storage: packing the packed matrix as a C x R
      matrix gives back the original, so no entry is lost or duplicated. */
  lemma {:induction false} ColMajorTwice(M: seq<real>, R: nat, C: nat)
    requires R > 0 && C > 0 && |M| == R * C
    ensures ColMajor(ColMajor(M, R, C), C, R) == M
  {
    var N := ColMajor(M, R, C);
    var P := ColMajor(N, C, R);
    forall k | 0 <= k < R * C
      ensures P[k] == M[k]
    {
      Index.Split(k, R, C);
      var row, col := k / C, k % C;
      ColMajorAt(N, C, R, col, row);
      ColMajorAt(M, R, C, row, col);
    }
  }

  /** fillCol: copies a column vector entry for entry. */
  method FillCol(X: array<real>, v: Vec)
    requires |v| <= X.Length
    modifies X
    ensures X[..|v|] == v
    ensures X[|v|..] == old(X[|v|..])
  {
    for r := 0 to |v|
      invariant X[..r] == v[..r]
      invariant X[|v|..] == old(X[|v|..])
    {
      X[r] := v[r];
    }
  }

  /** fillColMajor: X[idx++] = M[c + r*C] for each column c, each row r. */
  method FillColMajor(X: array<real>, M: seq<real>, R: nat, C: nat)
    requires R > 0 && |M| == R * C && R * C <= X.Length
    modifies X
    ensures X[..R * C] == ColMajor(M, R, C)
    ensures X[R * C..] == old(X[R * C..])
  {
    var idx := 0;
    for c := 0 to C
      invariant idx == c * R && idx <= R * C
      invariant X[..idx] == ColMajor(M, R, C)[..idx]
      invariant X[R * C..] == old(X[R * C..])
    {
      idx := PackColumn(X, M, R, C, c, idx);
    }
  }

  /** The inner loop of fillColMajor: column c of M goes to X[idx .. idx + R]. */
  method PackColumn(X: array<real>, M: seq<real>, R: nat, C: nat, c: nat, idx: nat) returns (next: nat)
    requires R > 0 && |M| == R * C && R * C <= X.Length && c < C && idx == c * R
    requires X[..idx] == ColMajor(M, R, C)[..idx]
    modifies X
    ensures next == (c + 1) * R && next <= R * C
    ensures X[..next] == ColMajor(M, R, C)[..next]
    ensures X[R * C..] == old(X[R * C..])
  {
    ghost var packed := ColMajor(M, R, C);
    ghost var n := R * C;
    Index.FlatBound(c, R - 1, C, R);
    next := idx;
    for r := 0 to R
      invariant next == idx + r && next <= n
      invariant X[..next] == packed[..next]
      invariant X[n..] == old(X[n..])
    {
      ColMajorAt(M, R, C, r, c);
      X[next] := M[c + r * C];
      assert X[..next + 1] == X[..next] + [packed[next]];
      next := next + 1;
    }
  }

  // ---------------------------------------------------------------------------
  // Row-major matrices written column by column (the D selectors)

  /** The row-major rows x cols matrix whose (r, c) entry is entry(r, c). */
  function Grid(rows: nat, cols: nat, entry: (nat, nat) -> real): (g: seq<real>)
    requires cols > 0
    ensures |g| == rows * cols
  {
    seq(rows * cols, k requires 0 <= k < rows * cols =>
      Index.Split(k, rows, cols);
      entry(k / cols, k % cols))
  }

  lemma GridAt(rows: nat, cols: nat, entry: (nat, nat) -> real, r: nat, c: nat)
    requires cols > 0 && r < rows && c < cols
    ensures 0 <= Index.Flat(r, c, cols) < rows * cols
    ensures Grid(rows, cols, entry)[Index.Flat(r, c, cols)] == entry(r, c)
  {
    Index.FlatBound(r, c, rows, cols);
    Index.DivModUnique(r, c, cols);
  }

  /** Row r of a row-major matrix of the given width (entries past the end read 0). */
  function Row(M: seq<real>, cols: nat, r: nat): (v: Vec)
    ensures |v| == cols
  {
    Tabulate(cols, (c: nat) => At(M, r * cols + c))
  }

  lemma GridRow(rows: nat, cols: nat, entry: (nat, nat) -> real, r: nat)
    requires cols > 0 && r < rows
    ensures Row(Grid(rows, cols, entry), cols, r) == Tabulate(cols, (c: nat) => entry(r, c))
  {
    forall c | 0 <= c < cols
      ensures Row(Grid(rows, cols, entry), cols, r)[c] == entry(r, c)
    {
      GridAt(rows, cols, entry, r, c);
      assert At(Grid(rows, cols, entry), r * cols + c) == Grid(rows, cols, entry)[Index.Flat(r, c, cols)];
    }
  }

  /** The double loop of setupBeliefVars: for each column, for each row,
      X[col + row*cols] = entry(row, col). */
  method FillByColumns(a: array<real>, rows: nat, cols: nat, entry: (nat, nat) -> real)
    requires cols > 0 && rows * cols <= a.Length
    modifies a
    ensures a[..rows * cols] == Grid(rows, cols, entry)
    ensures a[rows * cols..] == old(a[rows * cols..])
  {
    for col := 0 to cols
      invariant forall r, c :: 0 <= r < rows && 0 <= c < col ==>
                  Index.Flat(r, c, cols) < a.Length && a[Index.Flat(r, c, cols)] == entry(r, c)
      invariant a[rows * cols..] == old(a[rows * cols..])
    {
      for row := 0 to rows
        invariant forall r, c :: 0 <= r < rows && 0 <= c < col ==>
                    Index.Flat(r, c, cols) < a.Length && a[Index.Flat(r, c, cols)] == entry(r, c)
        invariant forall r :: 0 <= r < row ==>
                    Index.Flat(r, col, cols) < a.Length && a[Index.Flat(r, col, cols)] == entry(r, col)
        invariant a[rows * cols..] == old(a[rows * cols..])
      {
        Index.FlatBound(row, col, rows, cols);
        forall r, c | 0 <= r < rows && 0 <= c < cols && Index.Flat(r, c, cols) == Index.Flat(row, col, cols)
          ensures r == row && c == col
        {
          Index.FlatInjective(r, c, row, col, cols);
        }
        a[Index.Flat(row, col, cols)] := entry(row, col);
      }
    }
    forall k | 0 <= k < rows * cols
      ensures a[k] == Grid(rows, cols, entry)[k]
    {
      Index.Split(k, rows, cols);
      GridAt(rows, cols, entry, k / cols, k % cols);
    }
  }

  // ---------------------------------------------------------------------------
  // The quadratic term: diagonal H

  /** A constant diagonal c weighs the squared norm by c. */
  lemma {:induction false} DiagQuadConst(c: real, z: Vec)
    ensures DiagQuad(Fill(|z|, c), z) == c * SumSq(z)
    decreases |z|
  {
    if |z| > 0 {
      var n := |z| - 1;
      assert Fill(|z|, c)[..n] == Fill(n, c);
      DiagQuadConst(c, z[..n]);
    }
  }

  /** H[t] for t < T-1: no weight on the mean, alpha_belief on the covariance entries,
      alpha_control on the control, none on the slacks. */
  function HessianStage(d: Dims, alphaBelief: real, alphaControl: real): (h: Vec)
    ensures |h| == d.W()
    ensures alphaBelief >= 0.0 && alphaControl >= 0.0 ==> forall i :: 0 <= i < |h| ==> h[i] >= 0.0
  {
    Fill(d.xDim, 0.0) + Fill(d.sDim, alphaBelief) + Fill(d.uDim, alphaControl) + Fill(2 * d.B(), 0.0)
  }

  /** H[T-1]: the final belief, covariance weighted by alpha_final_belief. */
  function HessianFinal(d: Dims, alphaFinalBelief: real): (h: Vec)
    ensures |h| == d.B()
    ensures alphaFinalBelief >= 0.0 ==> forall i :: 0 <= i < |h| ==> h[i] >= 0.0
  {
    Fill(d.xDim, 0.0) + Fill(d.sDim, alphaFinalBelief)
  }

  /** The quadratic form of a stage Hessian is the weighted squared norm of the
      covariance part plus that of the control part; mean and slacks are free. */
  lemma HessianStageQuad(d: Dims, alphaBelief: real, alphaControl: real, x: Vec, sigma: Vec, u: Vec, slack: Vec)
    requires |x| == d.xDim && |sigma| == d.sDim && |u| == d.uDim && |slack| == 2 * d.B()
    ensures DiagQuad(HessianStage(d, alphaBelief, alphaControl), x + sigma + u + slack)
         == alphaBelief * SumSq(sigma) + alphaControl * SumSq(u)
  {
    DiagQuadPieces(0.0, alphaBelief, alphaControl, 0.0, x, sigma, u, slack);
    ZeroTimes(SumSq(x));
    ZeroTimes(SumSq(slack));
  }

  lemma DiagQuadPieces(c1: real, c2: real, c3: real, c4: real, z1: Vec, z2: Vec, z3: Vec, z4: Vec)
    ensures DiagQuad(Fill(|z1|, c1) + Fill(|z2|, c2) + Fill(|z3|, c3) + Fill(|z4|, c4), z1 + z2 + z3 + z4)
         == c1 * SumSq(z1) + c2 * SumSq(z2) + c3 * SumSq(z3) + c4 * SumSq(z4)
  {
    var h1, h2, h3, h4 := Fill(|z1|, c1), Fill(|z2|, c2), Fill(|z3|, c3), Fill(|z4|, c4);
    DiagQuadAppend(h1 + h2 + h3, h4, z1 + z2 + z3, z4);
    DiagQuadAppend(h1 + h2, h3, z1 + z2, z3);
    DiagQuadAppend(h1, h2, z1, z2);
    DiagQuadConst(c1, z1);
    DiagQuadConst(c2, z2);
    DiagQuadConst(c3, z3);
    DiagQuadConst(c4, z4);
  }

  /** The final Hessian weighs only the covariance part of the last belief. */
  lemma HessianFinalQuad(d: Dims, alphaFinalBelief: real, x: Vec, sigma: Vec)
    requires |x| == d.xDim && |sigma| == d.sDim
    ensures DiagQuad(HessianFinal(d, alphaFinalBelief), x + sigma) == alphaFinalBelief * SumSq(sigma)
  {
    DiagQuadAppend(Fill(d.xDim, 0.0), Fill(d.sDim, alphaFinalBelief), x, sigma);
    DiagQuadConst(0.0, x);
    DiagQuadConst(alphaFinalBelief, sigma);
    ZeroTimes(SumSq(x));
  }

  /** The H loop of setupBeliefVars for one stage t < T-1. */
  method FillHessianStage(a: array<real>, d: Dims, alphaBelief: real, alphaControl: real)
    requires d.W() <= a.Length
    modifies a
    ensures a[..d.W()] == HessianStage(d, alphaBelief, alphaControl)
    ensures forall k :: d.W() <= k < a.Length ==> a[k] == old(a[k])
  {
    var b := d.B();
    var i1 := WriteRun(a, 0, d.xDim, _ => 0.0);
    var i2 := WriteRun(a, i1, d.sDim, _ => alphaBelief);
    var i3 := WriteRun(a, i2, d.uDim, _ => alphaControl);
    var i4 := WriteRun(a, i3, b, _ => 0.0);
    var i5 := WriteRun(a, i4, b, _ => 0.0);
    ghost var h := HessianStage(d, alphaBelief, alphaControl);
    forall k | 0 <= k < d.W() ensures a[k] == h[k] {
      if k < i1 {} else if k < i2 {} else if k < i3 {} else if k < i4 {} else {}
    }
    assert a[..d.W()] == h;
  }

  /** The H loop of setupBeliefVars for the last stage. */
  method FillHessianFinal(a: array<real>, d: Dims, alphaFinalBelief: real)
    requires d.B() <= a.Length
    modifies a
    ensures a[..d.B()] == HessianFinal(d, alphaFinalBelief)
    ensures forall k :: d.B() <= k < a.Length ==> a[k] == old(a[k])
  {
    var i1 := WriteRun(a, 0, d.xDim, _ => 0.0);
    var i2 := WriteRun(a, i1, d.sDim, _ => alphaFinalBelief);
    ghost var h := HessianFinal(d, alphaFinalBelief);
    forall k | 0 <= k < d.B() ensures a[k] == h[k] {
      if k < i1 {} else {}
    }
    assert a[..d.B()] == h;
  }

  /** The H loops of setupBeliefVars over all stages. */
  method SetupHessians(H: seq<array<real>>, d: Dims, alphaBelief: real, alphaControl: real, alphaFinalBelief: real)
    requires d.T == |H| && d.T >= 1 && Distinct(H)
    requires forall t :: 0 <= t < d.T - 1 ==> d.W() <= H[t].Length
    requires d.B() <= H[d.T - 1].Length
    modifies set t | 0 <= t < |H| :: H[t]
    ensures forall t :: 0 <= t < d.T - 1 ==> H[t][..d.W()] == HessianStage(d, alphaBelief, alphaControl)
    ensures H[d.T - 1][..d.B()] == HessianFinal(d, alphaFinalBelief)
  {
    for t := 0 to d.T - 1
      invariant forall s :: 0 <= s < t ==> H[s][..d.W()] == HessianStage(d, alphaBelief, alphaControl)
    {
      FillHessianStage(H[t], d, alphaBelief, alphaControl);
    }
    FillHessianFinal(H[d.T - 1], d, alphaFinalBelief);
  }

  // ---------------------------------------------------------------------------
  // Equality-constraint selectors D

  /** The rows x cols 0/1 matrix whose row r has its one at column r - shift. */
  function Selector(rows: nat, cols: nat, shift: nat): (m: seq<real>)
    requires cols > 0
    ensures |m| == rows * cols
  {
    Grid(rows, cols, (r: nat, c: nat) => if r - shift == c then 1.0 else 0.0)
  }

  /** Row r of a selector applied to z picks z[r - shift], or 0 when that column does not exist. */
  lemma SelectorPicks(rows: nat, cols: nat, shift: nat, r: nat, z: Vec)
    requires cols > 0 && r < rows && |z| == cols
    ensures Dot(Row(Selector(rows, cols, shift), cols, r), z) == if shift <= r < shift + cols then z[r - shift] else 0.0
  {
    var entry := (r: nat, c: nat) => if r - shift == c then 1.0 else 0.0;
    GridRow(rows, cols, entry, r);
    assert Row(Selector(rows, cols, shift), cols, r) == ScaledUnit(cols, r - shift, 1.0);
    DotScaledUnit(cols, r - shift, 1.0, z);
  }

  /** The D loops of setupBeliefVars. D[1] carries the identity in rows B..2B-1 (its
      first B rows are zero), D[t] for 2 <= t < T-1 selects the belief out of the
      stage variables, and D[T-1] is the B x B identity. D[0] is never written.
      T >= 3 keeps D[1] and D[T-1] apart: at T = 2 the first loop would write its
      2B x W entries into the B x B buffer of the final stage. */
  method SetupSelectors(D: seq<array<real>>, d: Dims)
    requires d.T == |D| && d.T >= 3 && d.B() > 0
    requires Distinct(D)
    requires 2 * d.B() * d.W() <= D[1].Length && d.B() * d.B() <= D[d.T - 1].Length
    requires forall t :: 2 <= t < d.T - 1 ==> d.B() * d.W() <= D[t].Length
    modifies set t | 0 <= t < |D| :: D[t]
    ensures D[1][..2 * d.B() * d.W()] == Selector(2 * d.B(), d.W(), d.B())
    ensures forall t :: 2 <= t < d.T - 1 ==> D[t][..d.B() * d.W()] == Selector(d.B(), d.W(), 0)
    ensures D[d.T - 1][..d.B() * d.B()] == Selector(d.B(), d.B(), 0)
    ensures D[0][..] == old(D[0][..])
  {
    var b, w := d.B(), d.W();
    FillByColumns(D[1], 2 * b, w, (r: nat, c: nat) => if r - b == c then 1.0 else 0.0);
    for t := 2 to d.T - 1
      invariant D[1][..2 * b * w] == Selector(2 * b, w, b)
      invariant forall s :: 2 <= s < t ==> D[s][..b * w] == Selector(b, w, 0)
      invariant D[0][..] == old(D[0][..])
    {
      FillByColumns(D[t], b, w, (r: nat, c: nat) => if r - 0 == c then 1.0 else 0.0);
    }
    FillByColumns(D[d.T - 1], b, b, (r: nat, c: nat) => if r - 0 == c then 1.0 else 0.0);
  }

  /** The first stage's selector D[1] leaves the first B equality rows to the
      initial-belief constraint and puts the belief of stage 1 in the rest. */
  lemma FirstSelectorRows(d: Dims, r: nat, z: Vec)
    requires d.B() > 0 && r < 2 * d.B() && |z| == d.W()
    ensures Dot(Row(Selector(2 * d.B(), d.W(), d.B()), d.W(), r), z) == if r < d.B() then 0.0 else z[r - d.B()]
  {
    SelectorPicks(2 * d.B(), d.W(), d.B(), r, z);
  }

  // ---------------------------------------------------------------------------
  // The linear term f

  /** f[t]: nothing on belief and control, penalty_coeff on every slack. */
  function GradientStage(d: Dims, penalty: real): (f: Vec)
    ensures |f| == d.W()
  {
    Fill(d.B() + d.uDim, 0.0) + Fill(2 * d.B(), penalty)
  }

  /** The linear term of a stage is the penalty times the total slack, that is the
      L1 penalty on the dynamics violation once the slacks are non-negative. */
  lemma GradientStagePenalty(d: Dims, penalty: real, bu: Vec, slack: Vec)
    requires |bu| == d.B() + d.uDim && |slack| == 2 * d.B()
    ensures Dot(GradientStage(d, penalty), bu + slack) == penalty * Sum(slack)
  {
    DotAppend(Fill(d.B() + d.uDim, 0.0), Fill(2 * d.B(), penalty), bu, slack);
    DotConst(0.0, bu);
    DotConst(penalty, slack);
    ZeroTimes(Sum(bu));
  }

  /** The f loop of minimizeMeritFunction for one stage. */
  method FillGradient(a: array<real>, d: Dims, penalty: real)
    requires d.W() <= a.Length
    modifies a
    ensures a[..d.W()] == GradientStage(d, penalty)
    ensures forall k :: d.W() <= k < a.Length ==> a[k] == old(a[k])
  {
    var i1 := WriteRun(a, 0, d.B() + d.uDim, _ => 0.0);
    var i2 := WriteRun(a, i1, 2 * d.B(), _ => penalty);
    ghost var f := GradientStage(d, penalty);
    forall k | 0 <= k < d.W() ensures a[k] == f[k] {
      if k < i1 {} else {}
    }
    assert a[..d.W()] == f;
  }

  // ---------------------------------------------------------------------------
  // The dynamics constraint: C[t] and e

  /** linearizeBeliefDynamics(b, u): b' is approximated by F (b - b_t) + G (u - u_t) + h,
      with F a row-major B x B matrix and G a row-major B x U matrix. */
  datatype Linearization = Linearization(F: seq<real>, G: seq<real>, h: Vec)

  /** Entry (r, c) of the block row [F | G | I | -I]. */
  function BlockEntry(d: Dims, lin: Linearization, r: nat, c: nat): real
  {
    var b, u := d.B(), d.uDim;
    if c < b then At(lin.F, r * b + c)
    else if c < b + u then At(lin.G, r * u + (c - b))
    else if c < 2 * b + u then (if c - (b + u) == r then 1.0 else 0.0)
    else if c - (2 * b + u) == r then -1.0 else 0.0
  }

  /** CMat: the B x W matrix [F | G | I | -I], row-major. */
  function ConstraintBlock(d: Dims, lin: Linearization): (m: seq<real>)
    requires d.B() > 0
    ensures |m| == d.B() * d.W()
  {
    Grid(d.B(), d.W(), (r: nat, c: nat) => BlockEntry(d, lin, r, c))
  }

  /** C[t] as handed to the solver: CMat in column-major order. */
  function ConstraintStage(d: Dims, lin: Linearization): (m: seq<real>)
    requires d.B() > 0
    ensures |m| == d.B() * d.W()
  {
    ColMajor(ConstraintBlock(d, lin), d.B(), d.W())
  }

  /** Row r of [F | G | I | -I] is row r of F, then row r of G, then the r-th unit
      vector, then its negation. */
  lemma ConstraintRow(d: Dims, lin: Linearization, r: nat)
    requires d.B() > 0 && r < d.B()
    ensures Row(ConstraintBlock(d, lin), d.W(), r)
         == Row(lin.F, d.B(), r) + Row(lin.G, d.uDim, r) + ScaledUnit(d.B(), r, 1.0) + ScaledUnit(d.B(), r, -1.0)
  {
    var B, U, W := d.B(), d.uDim, d.W();
    var entry := (r: nat, c: nat) => BlockEntry(d, lin, r, c);
    GridRow(B, W, entry, r);
    var row := Row(ConstraintBlock(d, lin), W, r);
    var p1, p2, p3, p4 := Row(lin.F, B, r), Row(lin.G, U, r), ScaledUnit(B, r, 1.0), ScaledUnit(B, r, -1.0);
    forall c | 0 <= c < W
      ensures row[c] == (p1 + p2 + p3 + p4)[c]
    {
      assert row[c] == BlockEntry(d, lin, r, c);
    }
  }

  /** Row r of [F | G | I | -I] applied to (b, u, s+, s-) is (F b)_r + (G u)_r + s+_r - s-_r. */
  lemma ConstraintRowValue(d: Dims, lin: Linearization, r: nat, b: Vec, u: Vec, sp: Vec, sm: Vec)
    requires d.B() > 0 && r < d.B()
    requires |b| == d.B() && |u| == d.uDim && |sp| == d.B() && |sm| == d.B()
    ensures Dot(Row(ConstraintBlock(d, lin), d.W(), r), b + u + sp + sm)
         == Dot(Row(lin.F, d.B(), r), b) + Dot(Row(lin.G, d.uDim, r), u) + sp[r] - sm[r]
  {
    ConstraintRow(d, lin, r);
    DotPieces(Row(lin.F, d.B(), r), Row(lin.G, d.uDim, r), ScaledUnit(d.B(), r, 1.0), ScaledUnit(d.B(), r, -1.0),
              b, u, sp, sm);
    DotScaledUnit(d.B(), r, 1.0, sp);
    DotScaledUnit(d.B(), r, -1.0, sm);
  }

  lemma DotPieces(p1: Vec, p2: Vec, p3: Vec, p4: Vec, z1: Vec, z2: Vec, z3: Vec, z4: Vec)
    requires |p1| == |z1| && |p2| == |z2| && |p3| == |z3| && |p4| == |z4|
    ensures Dot(p1 + p2 + p3 + p4, z1 + z2 + z3 + z4) == Dot(p1, z1) + Dot(p2, z2) + Dot(p3, z3) + Dot(p4, z4)
  {
    DotAppend(p1 + p2 + p3, p4, z1 + z2 + z3, z4);
    DotAppend(p1 + p2, p3, z1 + z2, z3);
    DotAppend(p1, p2, z1, z2);
  }

  /** e[t+1] = -h + F b_t + G u_t. */
  function AffineOffset(d: Dims, lin: Linearization, b: Vec, u: Vec): (e: Vec)
    requires |b| == d.B() && |u| == d.uDim
    ensures |e| == d.B()
  {
    Tabulate(d.B(), (r: nat) => -At(lin.h, r) + Dot(Row(lin.F, d.B(), r), b) + Dot(Row(lin.G, d.uDim, r), u))
  }

  /** With the variables at the linearization point and both slacks zero, row r of the
      constraint block exceeds e[t+1] by exactly h_r: the linear constraint asks the
      next belief to equal the predicted one, h. */
  lemma OffsetAtReference(d: Dims, lin: Linearization, r: nat, b: Vec, u: Vec)
    requires d.B() > 0 && r < d.B() && |b| == d.B() && |u| == d.uDim
    ensures Dot(Row(ConstraintBlock(d, lin), d.W(), r), b + u + Fill(d.B(), 0.0) + Fill(d.B(), 0.0))
            - AffineOffset(d, lin, b, u)[r] == At(lin.h, r)
  {
    ConstraintRowValue(d, lin, r, b, u, Fill(d.B(), 0.0), Fill(d.B(), 0.0));
  }

  /** The shapes the linearization fill needs: one f and one C buffer per stage t < T-1,
      one e buffer per stage, all of them separate and large enough. */
  ghost predicate LinearBuffers(f: seq<array<real>>, C: seq<array<real>>, e: seq<array<real>>, d: Dims,
                                B: seq<Vec>, U: seq<Vec>)
  {
    && d.T >= 2 && d.B() > 0
    && |f| == d.T - 1 && |C| == d.T - 1 && |e| == d.T && |B| == d.T && |U| == d.T - 1
    && (forall t :: 0 <= t < d.T ==> |B[t]| == d.B())
    && (forall t :: 0 <= t < d.T - 1 ==> |U[t]| == d.uDim)
    && Distinct(f) && Distinct(C) && Distinct(e)
    && Disjoint(f, C) && Disjoint(f, e) && Disjoint(C, e)
    && (forall t :: 0 <= t < d.T - 1 ==> d.W() <= f[t].Length && d.B() * d.W() <= C[t].Length)
    && (forall t :: 0 <= t < d.T ==> d.B() <= e[t].Length)
  }

  /** The buffers of the stages before t hold f, C and e as linearized at (B[s], U[s]). */
  ghost predicate LinearizedUpTo(f: seq<array<real>>, C: seq<array<real>>, e: seq<array<real>>, d: Dims,
                                 linearize: (Vec, Vec) -> Linearization, B: seq<Vec>, U: seq<Vec>, penalty: real, t: nat)
    requires LinearBuffers(f, C, e, d, B, U) && t <= d.T - 1
    reads f, C, e
  {
    && (forall s :: 0 <= s < t ==> f[s][..d.W()] == GradientStage(d, penalty))
    && (forall s :: 0 <= s < t ==> C[s][..d.B() * d.W()] == ConstraintStage(d, linearize(B[s], U[s])))
    && (t > 0 ==> e[0][..d.B()] == B[0])
    && (forall s :: 0 <= s < t ==> e[s + 1][..d.B()] == AffineOffset(d, linearize(B[s], U[s]), B[s], U[s]))
  }

  /** The per-iteration fill of minimizeMeritFunction: for every stage t < T-1,
      linearize at (B[t], U[t]), write f[t], pack C[t] = [F | G | I | -I] column-major,
      write e[0] = B[0] at the first stage and e[t+1] = -h + F b + G u. */
  method FillLinearization(f: seq<array<real>>, C: seq<array<real>>, e: seq<array<real>>, d: Dims,
                           linearize: (Vec, Vec) -> Linearization, B: seq<Vec>, U: seq<Vec>, penalty: real)
    requires LinearBuffers(f, C, e, d, B, U)
    modifies (set t | 0 <= t < |f| :: f[t]), (set t | 0 <= t < |C| :: C[t]), (set t | 0 <= t < |e| :: e[t])
    ensures forall t :: 0 <= t < d.T - 1 ==> f[t][..d.W()] == GradientStage(d, penalty)
    ensures forall t :: 0 <= t < d.T - 1 ==> C[t][..d.B() * d.W()] == ConstraintStage(d, linearize(B[t], U[t]))
    ensures e[0][..d.B()] == B[0]
    ensures forall t :: 0 <= t < d.T - 1 ==> e[t + 1][..d.B()] == AffineOffset(d, linearize(B[t], U[t]), B[t], U[t])
  {
    for t := 0 to d.T - 1
      invariant LinearizedUpTo(f, C, e, d, linearize, B, U, penalty, t)
    {
      LinearizeStage(f, C, e, d, linearize, B, U, penalty, t);
    }
  }

  /** One iteration of the linearization loop: stage t's buffers, leaving the earlier ones alone. */
  method LinearizeStage(f: seq<array<real>>, C: seq<array<real>>, e: seq<array<real>>, d: Dims,
                        linearize: (Vec, Vec) -> Linearization, B: seq<Vec>, U: seq<Vec>, penalty: real, t: nat)
    requires LinearBuffers(f, C, e, d, B, U) && t < d.T - 1
    modifies f[t], C[t], e[t + 1], if t == 0 then {e[0]} else {}
    ensures f[t][..d.W()] == GradientStage(d, penalty)
    ensures C[t][..d.B() * d.W()] == ConstraintStage(d, linearize(B[t], U[t]))
    ensures t == 0 ==> e[0][..d.B()] == B[0]
    ensures e[t + 1][..d.B()] == AffineOffset(d, linearize(B[t], U[t]), B[t], U[t])
  {
    var lin := linearize(B[t], U[t]);
    FillGradient(f[t], d, penalty);
    FillColMajor(C[t], ConstraintBlock(d, lin), d.B(), d.W());
    if t == 0 {
      FillCol(e[0], B[0]);
    }
    FillCol(e[t + 1], AffineOffset(d, lin, B[t], U[t]));
  }

  // ---------------------------------------------------------------------------
  // Trust-box bounds lb, ub

  /** The global state and control limits xMin, xMax, uMin, uMax. */
  datatype Limits = Limits(xMin: Vec, xMax: Vec, uMin: Vec, uMax: Vec)

  /** lb[t] for t < T-1: the mean clamped below by xMin, the covariance entries
      unclamped, the control clamped below by uMin, and 0 for every slack. */
  function StageLower(d: Dims, lim: Limits, b: Vec, u: Vec, beps: real, ueps: real): (lb: Vec)
    ensures |lb| == d.W()
  {
    Tabulate(d.xDim, (i: nat) => Max(At(lim.xMin, i), At(b, i) - beps))
    + Tabulate(d.sDim, (i: nat) => At(b, d.xDim + i) - beps)
    + Tabulate(d.uDim, (i: nat) => Max(At(lim.uMin, i), At(u, i) - ueps))
    + Fill(2 * d.B(), 0.0)
  }

  /** ub[t] for t < T-1: belief and control only (the slacks have no upper bound). */
  function StageUpper(d: Dims, lim: Limits, b: Vec, u: Vec, beps: real, ueps: real): (ub: Vec)
    ensures |ub| == d.B() + d.uDim
  {
    Tabulate(d.xDim, (i: nat) => Min(At(lim.xMax, i), At(b, i) + beps))
    + Tabulate(d.sDim, (i: nat) => At(b, d.xDim + i) + beps)
    + Tabulate(d.uDim, (i: nat) => Min(At(lim.uMax, i), At(u, i) + ueps))
  }

  /** The stage bounds never pass the global limits nor the trust box, the covariance
      bounds are the trust box alone, and every slack is bounded below by 0. */
  lemma StageBounds(d: Dims, lim: Limits, b: Vec, u: Vec, beps: real, ueps: real)
    ensures var lb, ub := StageLower(d, lim, b, u, beps, ueps), StageUpper(d, lim, b, u, beps, ueps);
      && (forall i :: 0 <= i < d.xDim ==>
            lb[i] == Max(At(lim.xMin, i), At(b, i) - beps) && ub[i] == Min(At(lim.xMax, i), At(b, i) + beps))
      && (forall i :: d.xDim <= i < d.B() ==> lb[i] == At(b, i) - beps && ub[i] == At(b, i) + beps)
      && (forall i :: 0 <= i < d.uDim ==>
            lb[d.B() + i] == Max(At(lim.uMin, i), At(u, i) - ueps) && ub[d.B() + i] == Min(At(lim.uMax, i), At(u, i) + ueps))
      && (forall i :: d.B() + d.uDim <= i < d.W() ==> lb[i] == 0.0)
  {
    forall i | 0 <= i < d.uDim {
      ControlBoundAt(d, lim, b, u, beps, ueps, i);
    }
  }

  /** The bounds on control entry i of a stage. */
  lemma ControlBoundAt(d: Dims, lim: Limits, b: Vec, u: Vec, beps: real, ueps: real, i: nat)
    requires i < d.uDim
    ensures StageLower(d, lim, b, u, beps, ueps)[d.B() + i] == Max(At(lim.uMin, i), At(u, i) - ueps)
    ensures StageUpper(d, lim, b, u, beps, ueps)[d.B() + i] == Min(At(lim.uMax, i), At(u, i) + ueps)
  {
    assert StageLower(d, lim, b, u, beps, ueps)[d.B() + i]
        == Tabulate(d.uDim, (i: nat) => Max(At(lim.uMin, i), At(u, i) - ueps))[i];
    assert StageUpper(d, lim, b, u, beps, ueps)[d.B() + i]
        == Tabulate(d.uDim, (i: nat) => Min(At(lim.uMax, i), At(u, i) + ueps))[i];
  }

  /** lb[T-1]: the mean is bounded below by the goal as well as by the trust box. */
  function FinalLower(d: Dims, xGoal: Vec, b: Vec, beps: real): (lb: Vec)
    ensures |lb| == d.B()
    ensures forall i :: 0 <= i < d.xDim ==> lb[i] == Max(At(xGoal, i), At(b, i) - beps)
    ensures forall i :: d.xDim <= i < d.B() ==> lb[i] == At(b, i) - beps
  {
    Tabulate(d.xDim, (i: nat) => Max(At(xGoal, i), At(b, i) - beps))
    + Tabulate(d.sDim, (i: nat) => At(b, d.xDim + i) - beps)
  }

  /** ub[T-1]: the mean is bounded above by the goal as well as by the trust box. */
  function FinalUpper(d: Dims, xGoal: Vec, b: Vec, beps: real): (ub: Vec)
    ensures |ub| == d.B()
    ensures forall i :: 0 <= i < d.xDim ==> ub[i] == Min(At(xGoal, i), At(b, i) + beps)
    ensures forall i :: d.xDim <= i < d.B() ==> ub[i] == At(b, i) + beps
  {
    Tabulate(d.xDim, (i: nat) => Min(At(xGoal, i), At(b, i) + beps))
    + Tabulate(d.sDim, (i: nat) => At(b, d.xDim + i) + beps)
  }

  /** z satisfies lb[t] <= z <= ub[t] on belief and control and lb[t] <= z on the slacks. */
  ghost predicate InStageBox(d: Dims, lim: Limits, b: Vec, u: Vec, beps: real, ueps: real, z: Vec)
    requires |z| == d.W()
  {
    var lb, ub := StageLower(d, lim, b, u, beps, ueps), StageUpper(d, lim, b, u, beps, ueps);
    && (forall i :: 0 <= i < d.B() + d.uDim ==> lb[i] <= z[i] <= ub[i])
    && (forall i :: d.B() + d.uDim <= i < d.W() ==> lb[i] <= z[i])
  }

  /** Every point inside a stage's bounds lies in the trust box around b and within
      the global state limits, and its slacks are non-negative. */
  lemma StageBoxSound(d: Dims, lim: Limits, b: Vec, u: Vec, beps: real, ueps: real, z: Vec)
    requires |b| == d.B() && |z| == d.W() && InStageBox(d, lim, b, u, beps, ueps, z)
    ensures forall i :: 0 <= i < d.B() ==> Abs(z[i] - b[i]) <= beps
    ensures forall i :: 0 <= i < d.xDim ==> At(lim.xMin, i) <= z[i] <= At(lim.xMax, i)
    ensures forall i :: d.B() + d.uDim <= i < d.W() ==> z[i] >= 0.0
  {
    StageBounds(d, lim, b, u, beps, ueps);
  }

  /** The control part of a point inside a stage's bounds lies in the trust box around u
      and within the global control limits. */
  lemma ControlBoxSound(d: Dims, lim: Limits, b: Vec, u: Vec, beps: real, ueps: real, z: Vec)
    requires |u| == d.uDim && |z| == d.W() && InStageBox(d, lim, b, u, beps, ueps, z)
    ensures forall i :: 0 <= i < d.uDim ==> Abs(z[d.B() + i] - u[i]) <= ueps
    ensures forall i :: 0 <= i < d.uDim ==> At(lim.uMin, i) <= z[d.B() + i] <= At(lim.uMax, i)
  {
    var lb, ub := StageLower(d, lim, b, u, beps, ueps), StageUpper(d, lim, b, u, beps, ueps);
    forall i | 0 <= i < d.uDim
      ensures Abs(z[d.B() + i] - u[i]) <= ueps
      ensures At(lim.uMin, i) <= z[d.B() + i] <= At(lim.uMax, i)
    {
      ControlBoundAt(d, lim, b, u, beps, ueps, i);
      assert lb[d.B() + i] <= z[d.B() + i] <= ub[d.B() + i];
    }
  }

  /** The current (b, u) lies inside its own bounds whenever it is within the global
      limits and both half-widths are non-negative, so the subproblem is feasible. */
  lemma StageBoxContainsReference(d: Dims, lim: Limits, b: Vec, u: Vec, beps: real, ueps: real)
    requires |b| == d.B() && |u| == d.uDim && beps >= 0.0 && ueps >= 0.0
    requires forall i :: 0 <= i < d.xDim ==> At(lim.xMin, i) <= b[i] <= At(lim.xMax, i)
    requires forall i :: 0 <= i < d.uDim ==> At(lim.uMin, i) <= u[i] <= At(lim.uMax, i)
    ensures forall i :: 0 <= i < d.B() + d.uDim ==>
              StageLower(d, lim, b, u, beps, ueps)[i] <= (b + u)[i] <= StageUpper(d, lim, b, u, beps, ueps)[i]
  {
    var lb, ub := StageLower(d, lim, b, u, beps, ueps), StageUpper(d, lim, b, u, beps, ueps);
    StageBounds(d, lim, b, u, beps, ueps);
    forall i | 0 <= i < d.B() + d.uDim
      ensures lb[i] <= (b + u)[i] <= ub[i]
    {
      if i >= d.B() {
        var j := i - d.B();
        assert lb[d.B() + j] <= u[j] <= ub[d.B() + j];
      }
    }
  }

  /** At the last stage the mean's bounds are consistent exactly when the goal lies in
      the trust box around the final belief, and then both pin the mean to the goal. */
  lemma GoalPinned(d: Dims, xGoal: Vec, b: Vec, beps: real, i: nat)
    requires i < d.xDim
    ensures FinalLower(d, xGoal, b, beps)[i] <= FinalUpper(d, xGoal, b, beps)[i]
            <==> At(b, i) - beps <= At(xGoal, i) <= At(b, i) + beps
    ensures FinalLower(d, xGoal, b, beps)[i] <= FinalUpper(d, xGoal, b, beps)[i] ==>
              FinalLower(d, xGoal, b, beps)[i] == At(xGoal, i) == FinalUpper(d, xGoal, b, beps)[i]
  {
  }

  /** The lb loops of minimizeMeritFunction for one stage t < T-1. */
  method FillStageLower(lb: array<real>, d: Dims, lim: Limits, b: Vec, u: Vec, beps: real, ueps: real)
    requires d.W() <= lb.Length
    modifies lb
    ensures lb[..d.W()] == StageLower(d, lim, b, u, beps, ueps)
    ensures forall k :: d.W() <= k < lb.Length ==> lb[k] == old(lb[k])
  {
    var x := d.xDim;
    var i1 := WriteRun(lb, 0, x, (i: nat) => Max(At(lim.xMin, i), At(b, i) - beps));
    var i2 := WriteRun(lb, i1, d.sDim, (i: nat) => At(b, x + i) - beps);
    var i3 := WriteRun(lb, i2, d.uDim, (i: nat) => Max(At(lim.uMin, i), At(u, i) - ueps));
    var i4 := WriteRun(lb, i3, 2 * d.B(), _ => 0.0);
    ghost var l := StageLower(d, lim, b, u, beps, ueps);
    forall k | 0 <= k < d.W() ensures lb[k] == l[k] {
      if k < i1 {} else if k < i2 {} else if k < i3 {} else {}
    }
    assert lb[..d.W()] == l;
  }

  /** The ub loops of minimizeMeritFunction for one stage t < T-1. */
  method FillStageUpper(ub: array<real>, d: Dims, lim: Limits, b: Vec, u: Vec, beps: real, ueps: real)
    requires d.B() + d.uDim <= ub.Length
    modifies ub
    ensures ub[..d.B() + d.uDim] == StageUpper(d, lim, b, u, beps, ueps)
    ensures forall k :: d.B() + d.uDim <= k < ub.Length ==> ub[k] == old(ub[k])
  {
    var x := d.xDim;
    var i1 := WriteRun(ub, 0, x, (i: nat) => Min(At(lim.xMax, i), At(b, i) + beps));
    var i2 := WriteRun(ub, i1, d.sDim, (i: nat) => At(b, x + i) + beps);
    var i3 := WriteRun(ub, i2, d.uDim, (i: nat) => Min(At(lim.uMax, i), At(u, i) + ueps));
    ghost var h := StageUpper(d, lim, b, u, beps, ueps);
    forall k | 0 <= k < i3 ensures ub[k] == h[k] {
      if k < i1 {} else if k < i2 {} else {}
    }
    assert ub[..i3] == h;
  }

  /** The lb loops of minimizeMeritFunction for the last stage. */
  method FillFinalLower(lb: array<real>, d: Dims, xGoal: Vec, b: Vec, beps: real)
    requires d.B() <= lb.Length
    modifies lb
    ensures lb[..d.B()] == FinalLower(d, xGoal, b, beps)
    ensures forall k :: d.B() <= k < lb.Length ==> lb[k] == old(lb[k])
  {
    var x := d.xDim;
    var i1 := WriteRun(lb, 0, x, (i: nat) => Max(At(xGoal, i), At(b, i) - beps));
    var i2 := WriteRun(lb, i1, d.sDim, (i: nat) => At(b, x + i) - beps);
    ghost var l := FinalLower(d, xGoal, b, beps);
    forall k | 0 <= k < i2 ensures lb[k] == l[k] {
      if k < i1 {} else {}
    }
    assert lb[..i2] == l;
  }

  /** The ub loops of minimizeMeritFunction for the last stage. */
  method FillFinalUpper(ub: array<real>, d: Dims, xGoal: Vec, b: Vec, beps: real)
    requires d.B() <= ub.Length
    modifies ub
    ensures ub[..d.B()] == FinalUpper(d, xGoal, b, beps)
    ensures forall k :: d.B() <= k < ub.Length ==> ub[k] == old(ub[k])
  {
    var x := d.xDim;
    var i1 := WriteRun(ub, 0, x, (i: nat) => Min(At(xGoal, i), At(b, i) + beps));
    var i2 := WriteRun(ub, i1, d.sDim, (i: nat) => At(b, x + i) + beps);
    ghost var h := FinalUpper(d, xGoal, b, beps);
    forall k | 0 <= k < i2 ensures ub[k] == h[k] {
      if k < i1 {} else {}
    }
    assert ub[..i2] == h;
  }

  /** All the trust-box bounds of one trust-region iteration. */
  method SetTrustBounds(lb: seq<array<real>>, ub: seq<array<real>>, d: Dims, lim: Limits, xGoal: Vec,
                        B: seq<Vec>, U: seq<Vec>, beps: real, ueps: real)
    requires d.T >= 1 && |lb| == d.T && |ub| == d.T && |B| == d.T && |U| == d.T - 1
    requires Distinct(lb) && Distinct(ub) && Disjoint(lb, ub)
    requires forall t :: 0 <= t < d.T - 1 ==> d.W() <= lb[t].Length && d.B() + d.uDim <= ub[t].Length
    requires d.B() <= lb[d.T - 1].Length && d.B() <= ub[d.T - 1].Length
    modifies (set t | 0 <= t < |lb| :: lb[t]), (set t | 0 <= t < |ub| :: ub[t])
    ensures forall t :: 0 <= t < d.T - 1 ==>
              lb[t][..d.W()] == StageLower(d, lim, B[t], U[t], beps, ueps)
              && ub[t][..d.B() + d.uDim] == StageUpper(d, lim, B[t], U[t], beps, ueps)
    ensures lb[d.T - 1][..d.B()] == FinalLower(d, xGoal, B[d.T - 1], beps)
    ensures ub[d.T - 1][..d.B()] == FinalUpper(d, xGoal, B[d.T - 1], beps)
  {
    for t := 0 to d.T - 1
      invariant forall s :: 0 <= s < t ==>
                  lb[s][..d.W()] == StageLower(d, lim, B[s], U[s], beps, ueps)
                  && ub[s][..d.B() + d.uDim] == StageUpper(d, lim, B[s], U[s], beps, ueps)
    {
      FillStageLower(lb[t], d, lim, B[t], U[t], beps, ueps);
      FillStageUpper(ub[t], d, lim, B[t], U[t], beps, ueps);
    }
    FillFinalLower(lb[d.T - 1], d, xGoal, B[d.T - 1], beps);
    FillFinalUpper(ub[d.T - 1], d, xGoal, B[d.T - 1], beps);
  }
}
