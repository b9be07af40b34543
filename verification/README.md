# Belief-space planning core, modelled in Dafny

This project models the core of the BSP (belief-space planning) repository. It has five parts.

- **SLAM belief planner** (`cpp/slam/belief/slam-belief.cpp`). A trajectory of beliefs and controls is improved by sequential convex programming. Each iteration builds a convex QP around the current trajectory and solves it inside a trust box. The step is accepted, the box shrinks or grows, or the loop converges. An outer penalty loop enforces the belief dynamics through an L1 penalty whose coefficient grows by 5 until the violation falls below `cnt_tolerance`. The model covers the column-major packing helpers, the QP builders (Hessians, selectors, gradients, linearized constraints, trust-box bounds), the merit and cost accumulators, `minimizeMeritFunction` and `beliefPenaltyCollocation`.
- **Point-explore planner** (`cpp/point-explore/explore/explore.cpp`). It runs the same trust-region loop on N particles. The merit is an entropy. The convex subproblem is a diagonal second-order Taylor model with its constant split off. The model covers `setup_mpc_vars`, `is_valid_inputs`, the Hessian clamping, the linear term and Taylor constants, the particle-wise trust-box bounds, `explore_collocation` and `initialize_trajectory`.
- **Voxel grid** (`pr2/system/voxel-grid.h`, `pr2/system/voxel-grid.cpp`). The `Cube` class stores a 3-D grid flat. `VoxelGrid` builds it, enumerates the 26-neighbourhood and marks a point cloud's voxels occupied in the TSDF. It lists obstacles and computes the obstacle distance field (ODF) by a Dijkstra sweep from the object's voxel.
- **Planar arm system** (`planar/src/planar-system.cpp`). Its constructor and limits, the joint dynamics `dynfunc`, and `get_limits`.
- **PR2 arm helper** (`pr2grasp/python/pr2/arm.py`). The joint-state callback, the named postures and their mirroring to the right arm, and the gripper commands.

The QP builders and fill loops are imperative: each is a method over the solver's `array` buffers. Each method is proved against a specification function of the inputs. The trust-region decision, the merit, the bounds and the grid geometry are functions, and lemmas state their properties. The voxel grid and the arm are classes whose methods update their fields.

The SQP drivers are specified step by step. `Trial` is one solve and its decision. `Advance` is the state the loop moves to after it. `Loop` is the loop's control flow for any trial function, and `Run` is `Loop` with the planner's own trials. `Collocate` chains the penalty attempts. Each driver method ends exactly where its specification function ends. Lemmas about `Loop` show that the merit or entropy falls with every accepted step, and `Run` inherits these properties.

Routines this model does not contain are fields of the model datatypes. They enter as uninterpreted functions:
- the belief dynamics and their linearization;
- the entropy and its gradient;
- the QP solvers.

Solver failure is modelled as a solver result of `None`.

## Model

| member | source | states |
|---|---|---|
| `TrustRegion.Decide` | cpp/slam/belief/slam-belief.cpp:411-431 | The four outcomes of a trust-region iteration, each as an if-and-only-if on the improvements. Fail: the predicted improvement is below -1e-5. Converge: the predicted improvement is at least -1e-5 but below `min_approx_improve`. Shrink: the true improvement is negative or the ratio is below `improve_ratio_threshold`. Expand: otherwise. |
| `TrustRegion.RatioBelow` | cpp/slam/belief/slam-belief.cpp:401-421 | For a positive predicted improvement, the ratio test `exact/approx < 0.1` holds exactly when `exact < 0.1*approx`, with no division. |
| `TrustRegion.Resize` | cpp/slam/belief/slam-belief.cpp:421-430 | Shrink multiplies the half-width by `trust_shrink_ratio`, Expand by `trust_expand_ratio`, and the other decisions keep it. A positive half-width stays positive. |
| `TrustRegion.ExpandImproves` | cpp/slam/belief/slam-belief.cpp:417-431 | An accepted (expanding) step improves the true merit by at least `improve_ratio_threshold * min_approx_improve > 0`. |
| `SlamLayout.ColMajorAt` | cpp/slam/belief/slam-belief.cpp:45 | Row-major entry (r, c) of an R x C matrix lands at column-major position c*R + r. |
| `SlamLayout.ColMajorTwice` | cpp/slam/belief/slam-belief.cpp:40-48 | Packing is a transpose of the storage: packing the packed C x R matrix gives the original back, so no entry is lost or duplicated. |
| `SlamLayout.FillCol` | cpp/slam/belief/slam-belief.cpp:32-38 | `fillCol` copies the vector into the buffer's prefix and leaves the rest of the buffer unchanged. |
| `SlamLayout.FillColMajor` | cpp/slam/belief/slam-belief.cpp:40-48 | `fillColMajor` leaves the buffer's prefix equal to the column-major packing of the matrix; the rest is unchanged. |
| `SlamLayout.PackColumn` | cpp/slam/belief/slam-belief.cpp:44-46 | One pass of the inner loop extends the packed prefix by exactly column c. |
| `SlamLayout.FillByColumns` | cpp/slam/belief/slam-belief.cpp:128-146 | The column-then-row double loop that writes `X[col + row*cols]` produces the row-major matrix of the given entries. |
| `SlamLayout.HessianStage` | cpp/slam/belief/slam-belief.cpp:113-120 | A stage Hessian has W entries, all of them non-negative when both weights are. |
| `SlamLayout.HessianFinal` | cpp/slam/belief/slam-belief.cpp:122-124 | The final Hessian has B entries, all of them non-negative when `alpha_final_belief` is. |
| `SlamLayout.HessianStageQuad` | cpp/slam/belief/slam-belief.cpp:113-120 | The stage quadratic form is alpha_belief times the squared norm of sigma plus alpha_control times that of u. The mean and the slacks are unweighted. |
| `SlamLayout.HessianFinalQuad` | cpp/slam/belief/slam-belief.cpp:122-124 | The final quadratic form is alpha_final_belief times the squared norm of sigma. |
| `SlamLayout.FillHessianStage` | cpp/slam/belief/slam-belief.cpp:113-120 | The H loop of one stage writes exactly the stage Hessian and leaves the rest of the buffer unchanged. |
| `SlamLayout.FillHessianFinal` | cpp/slam/belief/slam-belief.cpp:122-124 | The H loop of the last stage writes exactly the final Hessian. |
| `SlamLayout.SetupHessians` | cpp/slam/belief/slam-belief.cpp:110-124 | After the H loops, every stage before the last holds the stage Hessian and the last stage holds the final Hessian. |
| `SlamLayout.SelectorPicks` | cpp/slam/belief/slam-belief.cpp:128-146 | Row r of a selector applied to z is `z[r-shift]`, or 0 when that column does not exist. |
| `SlamLayout.SetupSelectors` | cpp/slam/belief/slam-belief.cpp:127-146 | D[1] is the 2B x W selector shifted by B. D[t], for 1 < t < T-1, is the B x W selector. D[T-1] is the B x B identity. D[0] is unchanged. |
| `SlamLayout.FirstSelectorRows` | cpp/slam/belief/slam-belief.cpp:128-132 | The first B rows of D[1] read 0, leaving them to the initial-belief constraint. The next B rows read stage 1's belief. |
| `SlamLayout.GradientStage` | cpp/slam/belief/slam-belief.cpp:279-281 | The stage gradient has W entries. |
| `SlamLayout.GradientStagePenalty` | cpp/slam/belief/slam-belief.cpp:277-281 | The stage linear term is `penalty_coeff` times the slack sum. Belief and control are unweighted. |
| `SlamLayout.FillGradient` | cpp/slam/belief/slam-belief.cpp:279-281 | The f loop writes exactly the stage gradient. |
| `SlamLayout.ConstraintBlock` | cpp/slam/belief/slam-belief.cpp:283-289 | `CMat` is a B x W matrix. |
| `SlamLayout.ConstraintStage` | cpp/slam/belief/slam-belief.cpp:291 | `C[t]` has B*W entries: `CMat` in column-major order. |
| `SlamLayout.ConstraintRow` | cpp/slam/belief/slam-belief.cpp:286-289 | Row r of `[F, G, I, -I]` is row r of F, then row r of G, then the r-th unit vector, then its negation. |
| `SlamLayout.ConstraintRowValue` | cpp/slam/belief/slam-belief.cpp:286-289 | Row r applied to (b, u, s+, s-) is `(F b)_r + (G u)_r + s+_r - s-_r`. This is the linearized dynamics with slack. |
| `SlamLayout.AffineOffset` | cpp/slam/belief/slam-belief.cpp:298 | `e[t+1]` has B entries. |
| `SlamLayout.OffsetAtReference` | cpp/slam/belief/slam-belief.cpp:298 | At the linearization point with zero slacks, the constraint row minus `e[t+1]` is h. The linearized constraint then asks the next belief to equal the predicted one. |
| `SlamLayout.FillLinearization` | cpp/slam/belief/slam-belief.cpp:262-300 | After the linearization loop, every stage holds its gradient, its column-major `[F, G, I, -I]` at (B[t], U[t]) and `e[t+1] = -h + F b + G u`. Also `e[0] = B[0]`. |
| `SlamLayout.LinearizeStage` | cpp/slam/belief/slam-belief.cpp:264-299 | One iteration fills f[t], C[t] and e[t+1] (and e[0] at t = 0). |
| `SlamLayout.StageLower` | cpp/slam/belief/slam-belief.cpp:320-329 | lb[t] has W entries. |
| `SlamLayout.StageUpper` | cpp/slam/belief/slam-belief.cpp:331-339 | ub[t] has B + U_DIM entries; the slacks have no upper bound. |
| `SlamLayout.StageBounds` | cpp/slam/belief/slam-belief.cpp:320-337 | Entry by entry, the mean is bounded by `MAX(xMin, b-Beps)` and `MIN(xMax, b+Beps)`, the covariance by the trust box alone, and the control by `MAX(uMin, u-Ueps)` and `MIN(uMax, u+Ueps)`. Every slack has lower bound 0. |
| `SlamLayout.ControlBoundAt` | cpp/slam/belief/slam-belief.cpp:326-337 | The bounds of control entry i of a stage. |
| `SlamLayout.FinalLower` | cpp/slam/belief/slam-belief.cpp:345-349 | The final mean's lower bound is `MAX(xGoal, b-Beps)`; the covariance's is `b-Beps`. |
| `SlamLayout.FinalUpper` | cpp/slam/belief/slam-belief.cpp:351-355 | The final mean's upper bound is `MIN(xGoal, b+Beps)`; the covariance's is `b+Beps`. |
| `SlamLayout.StageBoxSound` | cpp/slam/belief/slam-belief.cpp:320-337 | Every point within a stage's bounds is within Beps of the belief, within the global state limits, and has non-negative slacks. |
| `SlamLayout.ControlBoxSound` | cpp/slam/belief/slam-belief.cpp:326-337 | The control part of such a point is within Ueps of u and within the global control limits. |
| `SlamLayout.StageBoxContainsReference` | cpp/slam/belief/slam-belief.cpp:320-337 | The current (b, u) lies within its own bounds when it is within the limits and the half-widths are non-negative, so the subproblem is feasible. |
| `SlamLayout.GoalPinned` | cpp/slam/belief/slam-belief.cpp:347-353 | The final mean's bounds are consistent exactly when the goal lies in the trust box, and then both pin the mean to the goal. |
| `SlamLayout.FillStageLower` | cpp/slam/belief/slam-belief.cpp:320-329 | The lb loops of a stage write exactly `StageLower`. |
| `SlamLayout.FillStageUpper` | cpp/slam/belief/slam-belief.cpp:331-337 | The ub loops of a stage write exactly `StageUpper`. |
| `SlamLayout.FillFinalLower` | cpp/slam/belief/slam-belief.cpp:345-349 | The lb loops of the last stage write exactly `FinalLower`. |
| `SlamLayout.FillFinalUpper` | cpp/slam/belief/slam-belief.cpp:351-355 | The ub loops of the last stage write exactly `FinalUpper`. |
| `SlamLayout.SetTrustBounds` | cpp/slam/belief/slam-belief.cpp:313-355 | All lb and ub buffers hold the stage and final bounds of the current trajectory. |
| `SlamBelief.StageViolation` | cpp/slam/belief/slam-belief.cpp:172 | `dynviol` has B_DIM entries. |
| `SlamBelief.ViolationUpTo` | cpp/slam/belief/slam-belief.cpp:460-465 | The L1 dynamics violation is never negative. |
| `SlamBelief.MeritBoundsCost` | cpp/slam/belief/slam-belief.cpp:163-180 | For a non-negative penalty the merit is at least the cost, and equals it on a trajectory with zero violation. |
| `SlamBelief.ViolationZeroUpTo` | cpp/slam/belief/slam-belief.cpp:460-465 | The violation over the first t stages is zero exactly when those stages follow the belief dynamics. |
| `SlamBelief.ViolationZero` | cpp/slam/belief/slam-belief.cpp:459-465 | `cntviol` is zero exactly when the whole trajectory satisfies `B[t+1] = beliefDynamics(B[t], U[t])`. |
| `SlamBelief.ComputeCost` | cpp/slam/belief/slam-belief.cpp:52-65 | `computeCost`'s loop returns the stage costs plus the final covariance term. |
| `SlamBelief.ComputeMerit` | cpp/slam/belief/slam-belief.cpp:163-180 | `computeMerit`'s loop returns the cost plus the penalty times the L1 violation. |
| `SlamBelief.AddStageMerit` | cpp/slam/belief/slam-belief.cpp:170-175 | One iteration keeps merit = cost + penalty * violation. |
| `SlamBelief.AddPenalties` | cpp/slam/belief/slam-belief.cpp:173-175 | The inner loop adds penalty times the L1 norm of `dynviol`. |
| `SlamBelief.ConstraintViolation` | cpp/slam/belief/slam-belief.cpp:459-465 | The `cntviol` loop returns the L1 dynamics violation. |
| `SlamBelief.BuildQP` | cpp/slam/belief/slam-belief.cpp:262-355 | The subproblem has T stages of the right sizes: W variables before the last stage, B at the last, and B offsets per stage. |
| `SlamBelief.ExtractB` | cpp/slam/belief/slam-belief.cpp:369-383 | `Bopt[t]` is the first B_DIM entries of stage t of the solution. |
| `SlamBelief.ExtractU` | cpp/slam/belief/slam-belief.cpp:376-378 | `Uopt[t]` is the U_DIM entries after the belief in stage t. |
| `SlamBelief.ExtractShaped` | cpp/slam/belief/slam-belief.cpp:369-383 | A trajectory read back from any solution has T beliefs and T-1 controls of the right sizes. |
| `SlamBelief.Trial` | cpp/slam/belief/slam-belief.cpp:313-421 | A candidate read back from the subproblem's solution has the planner's shape. |
| `SlamBelief.TrialExpandImproves` | cpp/slam/belief/slam-belief.cpp:401-427 | A trial that expands the box offers a candidate whose merit is lower by at least `0.1 * min_approx_improve`. |
| `SlamBelief.Advance` | cpp/slam/belief/slam-belief.cpp:411-427 | After Fail or Shrink the trajectory is kept; after Converge or Expand the candidate is taken. The box is kept, halved or enlarged by 1.5 as the decision says. |
| `SlamBelief.Next` | cpp/slam/belief/slam-belief.cpp:308-427 | One iteration of the trust-region loop moves to a state of the planner's shape. |
| `SlamBelief.NextMerit` | cpp/slam/belief/slam-belief.cpp:401-427 | No iteration except a converging one raises the merit. An expanding one lowers it by at least `0.1 * min_approx_improve`. |
| `SlamBelief.Loop` | cpp/slam/belief/slam-belief.cpp:214-443 | Whatever the step function, `minimizeMeritFunction`'s control flow only ever returns true. |
| `SlamBelief.LoopAccepted` | cpp/slam/belief/slam-belief.cpp:214-443 | A run accepts at most one step per solve. |
| `SlamBelief.LoopLowers` | cpp/slam/belief/slam-belief.cpp:401-434 | Suppose no Fail or Shrink raises a value and every Expand lowers it by `0.1 * min_approx_improve`. Then, unless the run returned on a small predicted improvement, it ends that much per accepted step below its start. |
| `SlamBelief.LoopFailRepeats` | cpp/slam/belief/slam-belief.cpp:411-434 | A step that fails and leaves the state unchanged, in a box of at least `min_trust_box_size`, makes the run never return. |
| `SlamBelief.LoopKeeps` | cpp/slam/belief/slam-belief.cpp:214-443 | A property of states that every step keeps holds where the run ends. |
| `SlamBelief.NextAtShaped` | cpp/slam/belief/slam-belief.cpp:369-427 | Every step from a trajectory of the planner's shape leads to one. |
| `SlamBelief.NextAtLowers` | cpp/slam/belief/slam-belief.cpp:401-427 | No step of `minimizeMeritFunction` that fails or shrinks raises the merit. One that expands lowers it by at least `0.1 * min_approx_improve`. |
| `SlamBelief.Run` | cpp/slam/belief/slam-belief.cpp:214-443 | A run of `minimizeMeritFunction` ends at a trajectory of the planner's shape, and whenever it returns, it returns true. |
| `SlamBelief.Accepted` | cpp/slam/belief/slam-belief.cpp:214-443 | The run accepts at most one step per solve. |
| `SlamBelief.RunStep` | cpp/slam/belief/slam-belief.cpp:308-434 | After the first trial, a run stops at Converge, stops at Fail or Shrink when the box is below `min_trust_box_size`, and otherwise goes on from the advanced state with one solve fewer. |
| `SlamBelief.FailRepeats` | cpp/slam/belief/slam-belief.cpp:401-434 | A Fail verdict with a box of at least `min_trust_box_size` repeats the same subproblem, so the run never returns. |
| `SlamBelief.RunLowersMerit` | cpp/slam/belief/slam-belief.cpp:214-443 | Unless the run returned on a small predicted improvement, its final trajectory's merit is lower than the start by at least `0.1 * min_approx_improve` per accepted step. |
| `SlamBelief.MinimizeMeritFunction` | cpp/slam/belief/slam-belief.cpp:214-443 | The two loops leave B and U at the final state of `Run` from the given trajectory and box, and return its result. |
| `SlamBelief.TrustRegionLoop` | cpp/slam/belief/slam-belief.cpp:308-436 | The inner loop at one linearization either returns the run's outcome, or leaves after an accepted step at a state from which the rest of the run is the same. |
| `SlamBelief.TrustRegionStep` | cpp/slam/belief/slam-belief.cpp:313-434 | One pass of the inner loop either leaves it, with the run's outcome or after an accepted step, or stays at the same trajectory in the resized box. Either way the rest of the run from where it stands gives the same outcome. |
| `SlamBelief.SolveStep` | cpp/slam/belief/slam-belief.cpp:313-431 | One iteration computes exactly `Trial`'s candidate and decision, and an expanding step lowers the merit. |
| `SlamBelief.PenaltyFor` | cpp/slam/belief/slam-belief.cpp:447-470 | Each attempt's penalty coefficient is at least the initial 5. |
| `SlamBelief.PenaltyGrows` | cpp/slam/belief/slam-belief.cpp:470 | The penalty strictly grows from attempt to attempt. |
| `SlamBelief.Collocate` | cpp/slam/belief/slam-belief.cpp:445-478 | The penalty loop makes between 1 and 3 attempts. When it returns a cost, that is the cost of the final trajectory, whose violation is below `cnt_tolerance` unless every attempt was used. |
| `SlamBelief.BeliefPenaltyCollocation` | cpp/slam/belief/slam-belief.cpp:445-478 | The loop leaves B and U where `Collocate` ends. Each attempt starts from the previous attempt's result, with that attempt's penalty and a box reset to 1. The loop stops at the first successful attempt whose violation is below `cnt_tolerance`. |
| `SlamBelief.PenaltyAttempt` | cpp/slam/belief/slam-belief.cpp:457-475 | One attempt leaves B and U at the end of `Run` with its penalty. It asks for a larger penalty exactly when the run did not both succeed and end with a violation below `cnt_tolerance`. A finished attempt returns the cost. |
| `Explore.ClampNonnegative` | cpp/point-explore/explore/explore.cpp:185 | The clamp is non-negative, at least its argument, and is either the argument or 0. |
| `Explore.HessianStage` | cpp/point-explore/explore/explore.cpp:182-191 | H[t] has the stage's size: N*(X_DIM+U_DIM) entries, or N*X_DIM at the last stage. |
| `Explore.HessianStageClamped` | cpp/point-explore/explore/explore.cpp:182-191 | Every Hessian entry is non-negative and at least the estimate, and equals the estimate where that is non-negative. |
| `Explore.ClampHessian` | cpp/point-explore/explore/explore.cpp:181-191 | The Hessian loops with one running index over `diaghess` write every stage's `HessianStage`. |
| `Explore.Zbar` | cpp/point-explore/explore/explore.cpp:196-209 | The expansion point has the stage's size: states then controls, and the final states X[T-1] at the last stage. |
| `Explore.FinalZbarReadsPastEnd` | cpp/point-explore/explore/explore.cpp:208-209 | For every well-shaped trajectory, the final-stage read `X[T]` goes past the end of X. |
| `Explore.GradRun` | cpp/point-explore/explore/explore.cpp:202-203 | The n gradient entries starting at the running index. |
| `Explore.StageGrad` | cpp/point-explore/explore/explore.cpp:195-215 | Stage t's share of the gradient has the stage's size. |
| `Explore.LinearTerm` | cpp/point-explore/explore/explore.cpp:203 | `f = d - H*zbar` has the gradient's length. |
| `Explore.StageTaylor` | cpp/point-explore/explore/explore.cpp:200-205 | The stage model with f = g - h*zbar, plus its share of the constants, is the second-order Taylor expansion `g'(z-zbar) + 0.5 (z-zbar)' diag(h) (z-zbar)`. |
| `Explore.StageAtExpansion` | cpp/point-explore/explore/explore.cpp:200-205 | At z = zbar, the stage model cancels its share of the constants. |
| `Explore.Expansion` | cpp/point-explore/explore/explore.cpp:196-209 | One expansion point per stage. |
| `Explore.Convexify` | cpp/point-explore/explore/explore.cpp:168-223 | The convexification has T stage Hessians and linear terms of the stage sizes. |
| `Explore.LinearStage` | cpp/point-explore/explore/explore.cpp:203-214 | The linear term of a stage has the stage's size. |
| `Explore.AtExpansionUpTo` | cpp/point-explore/explore/explore.cpp:195-216 | The model summed over the first t stages at the expansion point cancels the accumulated `hessian_constant` and `jac_constant`. |
| `Explore.ModelExactAtExpansion` | cpp/point-explore/explore/explore.cpp:222 | The quadratic model at the current trajectory, plus `constant_cost`, is the current merit. The subproblem is exact to zeroth order. |
| `Explore.FillLinearStage` | cpp/point-explore/explore/explore.cpp:200-205 | The inner gradient loop writes the linear term and adds the stage's `h zbar^2` and `-d zbar` to the constants. |
| `Explore.FillLinearTerm` | cpp/point-explore/explore/explore.cpp:193-216 | The gradient loops write every stage's linear term and return both Taylor constants. |
| `Explore.FillStages` | cpp/point-explore/explore/explore.cpp:195-216 | Over planned stages: every f[t] holds the planned term, and the constants are the planned sums. |
| `Explore.FillStage` | cpp/point-explore/explore/explore.cpp:196-205 | One stage of the gradient loops adds that stage to the constants and leaves earlier stages intact. |
| `Explore.Relinearize` | cpp/point-explore/explore/explore.cpp:168-223 | The `solution_accepted` branch leaves the buffers holding the convexification and returns its merit and constant. |
| `Explore.FillSubproblem` | cpp/point-explore/explore/explore.cpp:181-216 | H and f hold every stage's Hessian and linear term, with both constants. |
| `Explore.ParticleRun` | cpp/point-explore/explore/explore.cpp:230-236 | A run of n particles has n*dim bounds. |
| `Explore.ParticleBounds` | cpp/point-explore/explore/explore.cpp:231-235 | Bound i of particle p is read from `v[p*stride + i]`. |
| `Explore.ParticleRunAt` | cpp/point-explore/explore/explore.cpp:230-236 | Entry p*dim + i of a run bounds component i of particle p. |
| `Explore.StageLower` | cpp/point-explore/explore/explore.cpp:227-248 | lb[t] has the stage's size. |
| `Explore.StageUpper` | cpp/point-explore/explore/explore.cpp:227-248 | ub[t] has the stage's size. |
| `Explore.StateBounds` | cpp/point-explore/explore/explore.cpp:232-233 | The state bounds of component i of particle n are `MAX(xMin[i], x-Xeps)` and `MIN(xMax[i], x+Xeps)`. |
| `Explore.ControlBounds` | cpp/point-explore/explore/explore.cpp:242-243 | The control bounds of component i of particle n, read at the control stride, are `MAX(uMin[i], u-Ueps)` and `MIN(uMax[i], u+Ueps)`. |
| `Explore.StateEntry` | cpp/point-explore/explore/explore.cpp:232-233 | State entry k is bounded by limit component k % X_DIM and the box around zbar. |
| `Explore.ControlEntry` | cpp/point-explore/explore/explore.cpp:242-243 | Control entry k is bounded by limit component (k - N*X_DIM) % U_DIM and the box around zbar. |
| `Explore.StageBoxSound` | cpp/point-explore/explore/explore.cpp:227-248 | Every point within a stage's bounds is within the half-widths of zbar and within the global limits. |
| `Explore.StageBoxContainsExpansion` | cpp/point-explore/explore/explore.cpp:227-248 | zbar lies within its own bounds when it is within the limits and the half-widths are non-negative. |
| `Explore.FillParticleBounds` | cpp/point-explore/explore/explore.cpp:230-236 | The particle loops write the run's lower and upper bounds from `start` on and leave earlier entries alone. |
| `Explore.FillParticle` | cpp/point-explore/explore/explore.cpp:231-235 | The inner loop appends particle p's bounds. |
| `Explore.FillStageBounds` | cpp/point-explore/explore/explore.cpp:227-248 | The bound loops of a stage write exactly `StageLower` and `StageUpper`. |
| `Explore.SetTrustBounds` | cpp/point-explore/explore/explore.cpp:227-248 | All lb and ub buffers hold the stage bounds. |
| `Explore.ControlStrideOverrun` | cpp/point-explore/explore/explore.cpp:242 | With X_DIM = 3, U_DIM = 2 and N = 2, the source's control read goes past the end of `U[t]`. |
| `Explore.ControlStrideMisread` | cpp/point-explore/explore/explore.cpp:242 | With X_DIM = 2, U_DIM = 3 and N = 2, the source bounds particle 1's control by particle 0's entries. |
| `Explore.ControlStrideLatent` | cpp/point-explore/explore/explore.cpp:242-243 | When X_DIM = U_DIM, the source's control bounds are the intended ones. |
| `ExploreLoop.BuildQP` | cpp/point-explore/explore/explore.cpp:226-258 | The subproblem has T stages of bounds of the stage sizes. |
| `ExploreLoop.ExtractX` | cpp/point-explore/explore/explore.cpp:261-266 | `Xopt[t]` is the first N*X_DIM entries of stage t of the solution. |
| `ExploreLoop.ExtractU` | cpp/point-explore/explore/explore.cpp:267-271 | `Uopt[t]` is the N*U_DIM entries after the states. |
| `ExploreLoop.ExtractShaped` | cpp/point-explore/explore/explore.cpp:261-272 | A trajectory read back from any solution has the planner's shape. |
| `ExploreLoop.Trial` | cpp/point-explore/explore/explore.cpp:226-304 | A candidate read back from the subproblem's solution has the planner's shape. |
| `ExploreLoop.TrialExpandImproves` | cpp/point-explore/explore/explore.cpp:290-316 | A trial that expands the box offers a candidate whose entropy is lower by at least `0.1 * min_approx_improve`. |
| `ExploreLoop.ExploreStep` | cpp/point-explore/explore/explore.cpp:226-316 | One iteration computes exactly `Trial`'s candidate and decision, and an expanding step lowers the entropy by at least `0.1 * min_approx_improve`. |
| `ExploreLoop.Advance` | cpp/point-explore/explore/explore.cpp:298-316 | After Fail or Shrink the trajectory is kept; after Converge or Expand the candidate is taken. The box is kept, halved or enlarged by 1.5. |
| `ExploreLoop.LoopAccepted` | cpp/point-explore/explore/explore.cpp:163-321 | Whatever the trial function, a run accepts at most one step per iteration. |
| `ExploreLoop.LoopLowers` | cpp/point-explore/explore/explore.cpp:290-316 | Suppose no Shrink raises a value and every Expand lowers it by `0.1 * min_approx_improve`. Then, unless the run converged, it ends that much per accepted step below its start. |
| `ExploreLoop.LoopShaped` | cpp/point-explore/explore/explore.cpp:163-321 | The trajectory a run of the loop ends with has the planner's shape. |
| `ExploreLoop.TrialAtLowers` | cpp/point-explore/explore/explore.cpp:290-316 | No trial of `exploreCollocation` that shrinks raises the entropy. One that expands lowers it by at least `0.1 * min_approx_improve`. |
| `ExploreLoop.Run` | cpp/point-explore/explore/explore.cpp:163-321 | The loop with the trials of `exploreCollocation` ends at a trajectory of the planner's shape. |
| `ExploreLoop.Accepted` | cpp/point-explore/explore/explore.cpp:163-321 | A run accepts at most one step per iteration. |
| `ExploreLoop.RunStep` | cpp/point-explore/explore/explore.cpp:163-321 | After the first trial, a run fails at Fail where it stands, stops at Converge at the candidate, and otherwise goes on from the advanced state with one iteration fewer. |
| `ExploreLoop.RunLowersEntropy` | cpp/point-explore/explore/explore.cpp:163-321 | Unless the run converged, its final trajectory's entropy is lower than the start by at least `0.1 * min_approx_improve` per accepted step. |
| `ExploreLoop.ExploreCollocation` | cpp/point-explore/explore/explore.cpp:143-322 | The loop runs from `Xeps = Ueps = 0.5` for at most 100 iterations. It leaves X and U where `Run` ends and returns INFTY after a failure, the final entropy otherwise, and nothing when the solver fails. |
| `ExploreLoop.Iterate` | cpp/point-explore/explore/explore.cpp:163-321 | The loop with `solution_accepted` caching of the convexification ends where `Run` ends. |
| `ExploreLoop.Iteration` | cpp/point-explore/explore/explore.cpp:163-318 | One pass of the loop body either ends the loop where `Run` ends, or moves to a state from which `Run` with one iteration fewer gives the same outcome. The trajectory changes only when a step is adopted. |
| `ExploreSetup.FillFamily` | cpp/point-explore/explore/explore.cpp:46-57 | Every used entry of one buffer family is set to the sentinel. |
| `ExploreSetup.SetupMPCVars` | cpp/point-explore/explore/explore.cpp:22-60 | After `setup_mpc_vars`, every used entry of H, f, lb, ub, z and c is INFTY. |
| `ExploreSetup.FillPair` | cpp/point-explore/explore/explore.cpp:46-57 | Two separate families are both set to the sentinel. |
| `ExploreSetup.FamilyBelow` | cpp/point-explore/explore/explore.cpp:127-136 | The loops of one family return true exactly when no used entry exceeds the limit. |
| `ExploreSetup.IsValidInputs` | cpp/point-explore/explore/explore.cpp:127-140 | `is_valid_inputs` returns true exactly when no entry of H, f, lb, ub or c exceeds INFTY/2. |
| `ExploreSetup.SentinelsFailCheck` | cpp/point-explore/explore/explore.cpp:127-140 | Straight after `setup_mpc_vars` the check fails. |
| `ExploreSetup.MeanParticle` | cpp/point-explore/explore/explore.cpp:331-332 | The mean of the first M particles (M is the compile-time particle count, not the length of the list passed in) has X_DIM entries. |
| `ExploreSetup.WeightedSumConstant` | cpp/point-explore/explore/explore.cpp:332 | The weighted sum of equal entries is the count times the weight times the entry. |
| `ExploreSetup.MeanOfAgreeing` | cpp/point-explore/explore/explore.cpp:329-338 | When the first M particles agree on an entry, so does their mean. |
| `ExploreSetup.RawControl` | cpp/point-explore/explore/explore.cpp:329-372 | The unclamped initial control has N*U_DIM entries. |
| `ExploreSetup.ClampControl` | cpp/point-explore/explore/explore.cpp:376-377 | The two clamps leave a value in [lo, hi] when lo <= hi, keep a value already inside, and otherwise give an end point. |
| `ExploreSetup.ClampControls` | cpp/point-explore/explore/explore.cpp:374-379 | The clamping loops clamp every entry to the limits of its component. |
| `ExploreSetup.ClampParticle` | cpp/point-explore/explore/explore.cpp:375-378 | The inner loop clamps one particle's entries and keeps the others. |
| `ExploreSetup.InitializeTrajectory` | cpp/point-explore/explore/explore.cpp:325-388 | `X[0] = x0`. Every stage applies the same clamped control. The states follow `dynfunc`. |
| `Cubes.PlusNotBelow` | pr2/system/voxel-grid.cpp:157-158 | A relaxed distance `d + step` with step >= 0 never undercuts d. INFINITY absorbs steps. |
| `Cubes.BelowOrder` | pr2/system/voxel-grid.cpp:13-15 | The distance order is irreflexive, transitive and asymmetric, so a least queue entry is well defined. |
| `Cubes.CellIndexFlat` | pr2/system/voxel-grid.h:38 | The cube index `z + y*zs + x*ys*zs` is row-major flattening applied twice. |
| `Cubes.CellIndexBound` | pr2/system/voxel-grid.h:36-38 | In-range coordinates land inside the storage. |
| `Cubes.CellIndexInjective` | pr2/system/voxel-grid.h:45-48 | Distinct in-range cells have distinct positions. |
| `Cubes.Cube.constructor` | pr2/system/voxel-grid.h:31-34 | `Cube(x, y, z)` is a zero-filled block of x*y*z cells. |
| `Cubes.Cube.Empty` | pr2/system/voxel-grid.h:29 | `Cube()` is the empty block. |
| `Cubes.Cube.Set` | pr2/system/voxel-grid.h:45-48 | `set` writes exactly the one cell and every other cell keeps its value. |
| `Cubes.Cube.SetAll` | pr2/system/voxel-grid.h:54-58 | Every cell becomes the value. |
| `VoxelGrids.Layer` | pr2/system/voxel-grid.cpp:33-60 | A z layer of offsets has nine steps. |
| `VoxelGrids.LayerIndex` | pr2/system/voxel-grid.cpp:33-60 | Each layer holds every planar step in {-1,0,1}^2 exactly once, the centre first. |
| `VoxelGrids.OffsetLayer` | pr2/system/voxel-grid.cpp:33-60 | The 26 offsets are the z = -1 layer, the z = 0 layer without its centre, and the z = 1 layer, in the constructor's order. |
| `VoxelGrids.OffsetIndex` | pr2/system/voxel-grid.cpp:33-60 | Every non-zero step has a position in the offsets. |
| `VoxelGrids.OffsetAdjacent` | pr2/system/voxel-grid.cpp:33-60 | Every offset is a non-zero unit step, found again at its own position. |
| `VoxelGrids.OffsetsShape` | pr2/system/voxel-grid.cpp:33-60 | The 26 offsets are pairwise distinct non-zero unit steps. |
| `VoxelGrids.OffsetsComplete` | pr2/system/voxel-grid.cpp:33-60 | Every adjacent voxel is reached by some offset: the offsets enumerate the 26-neighbourhood. |
| `VoxelGrids.OffsetDists` | pr2/system/voxel-grid.cpp:62-89 | One step length per offset. |
| `VoxelGrids.OffsetDistsNonnegative` | pr2/system/voxel-grid.cpp:62-89 | The step lengths are non-negative for non-negative voxel sizes and norms. |
| `VoxelGrids.StepLengthsMeasure` | pr2/system/voxel-grid.cpp:155-157 | The step lengths as edge weights agree with `offset_dists` and are non-negative. |
| `VoxelGrids.SetCell` | pr2/system/voxel-grid.cpp:153-159 | Setting a voxel of a cube writes exactly that voxel. |
| `VoxelGrids.MinKey` | pr2/system/voxel-grid.cpp:13-15 | A non-empty queue has an entry of least distance, which the reversed `operator<` puts on top of the max-heap. |
| `VoxelGrids.SweepStarts` | pr2/system/voxel-grid.cpp:127-138 | The initial queue (object at 0, other free voxels at INFINITY) satisfies the sweep invariant. |
| `VoxelGrids.PopKeeps` | pr2/system/voxel-grid.cpp:147-153 | Popping a least entry and fixing its distance keeps the invariant while its neighbours are relaxed. |
| `VoxelGrids.OnlyQueuedRelaxed` | pr2/system/voxel-grid.cpp:156-163 | A neighbour whose distance can still drop is still queued. |
| `VoxelGrids.LowerKeeps` | pr2/system/voxel-grid.cpp:157-163 | Lowering a queued voxel's distance and key keeps the relaxation invariant. |
| `VoxelGrids.RelaxedAll` | pr2/system/voxel-grid.cpp:156-164 | Once every free neighbour satisfies the triangle inequality from the popped voxel, the sweep invariant holds again. |
| `VoxelGrids.SweepDone` | pr2/system/voxel-grid.cpp:143-165 | With the queue empty, every free voxel has a non-negative distance, the object's is 0, and every free step satisfies the triangle inequality. |
| `VoxelGrids.SetMirrored` | pr2/system/voxel-grid.cpp:153-159 | Writing a free voxel keeps the cube mirroring the distances. |
| `VoxelGrids.QueueFree` | pr2/system/voxel-grid.cpp:127-138 | Queues every free voxel: the object at 0 and the rest at INFINITY. |
| `VoxelGrids.Top` | pr2/system/voxel-grid.cpp:147 | `pq.top()` is an entry of least key. |
| `VoxelGrids.PopLeast` | pr2/system/voxel-grid.cpp:147-153 | The popped entry leaves the queue, and its key becomes its distance in the cube. |
| `VoxelGrids.LowerProgress` | pr2/system/voxel-grid.cpp:157-159 | Lowering neighbour i keeps every distance at most its prior value and settles neighbours 0 to i. |
| `VoxelGrids.RelaxOne` | pr2/system/voxel-grid.cpp:156-163 | Relaxing neighbour i keeps the invariant and the queue's keys, only lowers values, and settles neighbours 0 to i. |
| `VoxelGrids.RelaxNeighbors` | pr2/system/voxel-grid.cpp:155-164 | Relaxing all free neighbours restores the sweep invariant with the same queue keys and values no higher. |
| `VoxelGrids.VoxelGrid.constructor` | pr2/system/voxel-grid.cpp:22-91 | The corners are `center -/+ size/2`, the voxel sizes are `size/resolution`, and the radius is the least voxel size over 10. Every TSDF cell starts at 1. |
| `VoxelGrids.VoxelGrid.VoxelIndexIsCellIndex` | pr2/system/voxel-grid.h:106-111 | `voxel_index` is the TSDF cube's cell index, in range for valid voxels. |
| `VoxelGrids.VoxelGrid.NeighborOffsets` | pr2/system/voxel-grid.cpp:373-387 | The listed offsets are increasing positions whose neighbours are free. |
| `VoxelGrids.VoxelGrid.NeighborOffsetsComplete` | pr2/system/voxel-grid.cpp:378-385 | Every offset leading to a free voxel is listed. |
| `VoxelGrids.VoxelGrid.GetVoxelNeighborsAndDists` | pr2/system/voxel-grid.cpp:373-387 | Returns exactly the free adjacent voxels in offset order, each with the length of the step to it. |
| `VoxelGrids.VoxelGrid.NeighborIsAdjacent` | pr2/system/voxel-grid.cpp:378-385 | Every listed neighbour is free and adjacent. |
| `VoxelGrids.VoxelGrid.AdjacentIsNeighbor` | pr2/system/voxel-grid.cpp:378-385 | Every free adjacent voxel is listed. |
| `VoxelGrids.VoxelGrid.SetTsdf` | pr2/system/voxel-grid.cpp:104 | Writes exactly one TSDF voxel. |
| `VoxelGrids.VoxelGrid.MarkOccupied` | pr2/system/voxel-grid.cpp:103-110 | A voxel and its in-bounds neighbours become occupied. Nothing else changes. |
| `VoxelGrids.VoxelGrid.UpdateTSDF` | pr2/system/voxel-grid.cpp:97-113 | Every valid point's voxel and its neighbours become occupied. Occupied voxels stay occupied. Voxels near no point are unchanged. |
| `VoxelGrids.VoxelGrid.VoxelAtIndex` | pr2/system/voxel-grid.h:109-111 | Unflattening inverts `voxel_index`. |
| `VoxelGrids.VoxelGrid.VoxelAtValid` | pr2/system/voxel-grid.h:106-111 | Every storage position is the index of a valid voxel. |
| `VoxelGrids.VoxelGrid.MarkedCells` | pr2/system/voxel-grid.cpp:289-301 | Increasing positions below n with the requested occupancy. |
| `VoxelGrids.VoxelGrid.MarkedCellsComplete` | pr2/system/voxel-grid.cpp:291-297 | Every such position is listed. |
| `VoxelGrids.VoxelGrid.RowStarts` | pr2/system/voxel-grid.cpp:291-293 | Consecutive (i, j) rows are adjacent in storage, and together they cover it. |
| `VoxelGrids.VoxelGrid.ScanRow` | pr2/system/voxel-grid.cpp:293-297 | The z loop of one row extends the list of marked voxels by that row. |
| `VoxelGrids.VoxelGrid.MarkedStep` | pr2/system/voxel-grid.cpp:294-296 | Testing one more cell extends the list exactly when the cell carries the mark. |
| `VoxelGrids.VoxelGrid.ScanVoxels` | pr2/system/voxel-grid.cpp:289-301 | The triple loop returns exactly the valid voxels with the mark, each once, in increasing index order. |
| `VoxelGrids.VoxelGrid.ScanExact` | pr2/system/voxel-grid.cpp:289-301 | The listed voxels are exactly the valid voxels with the mark. |
| `VoxelGrids.VoxelGrid.ScanOrdered` | pr2/system/voxel-grid.cpp:291-299 | The listed voxels are in strictly increasing (x, y, z) order. |
| `VoxelGrids.VoxelGrid.GetObstacles` | pr2/system/voxel-grid.cpp:289-301 | `get_obstacles` returns exactly the occupied voxels, once each, in increasing order. |
| `VoxelGrids.VoxelGrid.FreeListKept` | pr2/system/voxel-grid.cpp:130 | Writing another cube leaves the free-voxel list exact. |
| `VoxelGrids.VoxelGrid.FreeVoxels` | pr2/system/voxel-grid.cpp:127-138 | Lists exactly the free voxels, all of them valid. |
| `VoxelGrids.VoxelGrid.FreeNeighbors` | pr2/system/voxel-grid.cpp:155 | Returns the listed free voxels adjacent to the current one, with their step lengths, and all of them. |
| `VoxelGrids.VoxelGrid.EdgeLengths` | pr2/system/voxel-grid.cpp:155-157 | The step lengths form non-negative edge weights of the grid. |
| `VoxelGrids.VoxelGrid.SweepIsODF` | pr2/system/voxel-grid.cpp:116-168 | A finished sweep is a distance field: INFINITY off the free voxels, non-negative, 0 at the object, and satisfying the triangle inequality along every free step. |
| `VoxelGrids.VoxelGrid.MirroredCells` | pr2/system/voxel-grid.cpp:119-120 | The cube holds the distances on free voxels and INFINITY on the others. |
| `VoxelGrids.VoxelGrid.GetODF` | pr2/system/voxel-grid.cpp:116-168 | `get_ODF` returns a fresh cube: INFINITY at occupied voxels, 0 at the object's free voxel, non-negative, and never more than a neighbour's value plus the step. |
| `VoxelGrids.VoxelGrid.SweepStep` | pr2/system/voxel-grid.cpp:143-164 | One pass of the while loop keeps the sweep invariant and shrinks the queue. |
| `VoxelGrids.VoxelGrid.Propagate` | pr2/system/voxel-grid.cpp:143-165 | The while loop runs until the queue is empty, keeping the invariant. |
| `Planar.PlanarLimits` | planar/src/planar-system.cpp:29-33 | The joint angles and velocities lie in [-pi/2, pi/2]. The object coordinates are unbounded by ±INFTY. A static arm pins its last joint's velocity to 0. |
| `Planar.LimitsOrdered` | planar/src/planar-system.cpp:29-33 | Every lower limit is at most its upper limit. The last control can move exactly when the arm is not static. |
| `Planar.PlanarSystem.constructor` | planar/src/planar-system.cpp:7-39 | `init` stores its arguments, places the base at the origin with links 0.5, 0.25 and 0.125, and sets the sizes 4/2/6/4/6, the limits and dt = 1. |
| `Planar.PlanarSystem.DynFunc` | planar/src/planar-system.cpp:45-50 | The joint angles advance by dt*(u+q). The object coordinates are unchanged. |
| `Planar.PlanarSystem.NoiseIsControl` | planar/src/planar-system.cpp:48 | Noise acts as extra control: `dynfunc(x, u, q) = dynfunc(x, u+q, 0)`. |
| `Planar.PlanarSystem.StepsCompose` | planar/src/planar-system.cpp:45-50 | Two noise-free steps make one step with the summed control. |
| `Planar.PlanarSystem.GetLimits` | planar/src/planar-system.cpp:136-141 | `get_limits` returns the four stored limit vectors. |
| `PR2Arm.PosturesHaveSevenJoints` | pr2grasp/python/pr2/arm.py:38-44 | Every named posture sets seven joints. |
| `PR2Arm.Mirror` | pr2grasp/python/pr2/arm.py:273-279 | `_mirror_arm_joints` negates joints 0, 2, 4 and 6 and keeps joints 1, 3 and 5. |
| `PR2Arm.MirrorInvolution` | pr2grasp/python/pr2/arm.py:274-279 | Mirroring twice gives the posture back. |
| `PR2Arm.Zip` | pr2grasp/python/pr2/arm.py:254 | `zip` pairs names with positions up to the shorter list. |
| `PR2Arm.FirstMatchAt` | pr2grasp/python/pr2/arm.py:256-259 | The lookup finds nothing exactly when no pair has the name. Otherwise it returns the first pair's value. |
| `PR2Arm.CollectFull` | pr2grasp/python/pr2/arm.py:253-261 | The collected joints number at most the names, and exactly that many when every name is found. Then entry k is the value of joint k. |
| `PR2Arm.Find` | pr2grasp/python/pr2/arm.py:256-259 | The scan returns the first match. |
| `PR2Arm.Arm.constructor` | pr2grasp/python/pr2/arm.py:47-63 | The joint names, tool frame and gripper joint carry the arm's prefix. The grasp range is [-0.01, 0.08] and the maximum effort 40. No joint state has been seen yet. |
| `PR2Arm.Arm.JointStateCallback` | pr2grasp/python/pr2/arm.py:245-266 | Stores the message. The current joints are the positions collected for the arm's joint names. The grasp is updated only when the gripper joint is present. |
| `PR2Arm.Arm.PostureJoints` | pr2grasp/python/pr2/arm.py:138-147 | `go_to_posture` accepts exactly the named postures, with seven joints each. |
| `PR2Arm.Arm.SetGripper` | pr2grasp/python/pr2/arm.py:180-189 | A goal is sent exactly when the grasp lies in [min_grasp, max_grasp]. It carries the grasp, the effort (defaulting to 40) and `block`. |
| `PR2Arm.Arm.CloseGripper` | pr2grasp/python/pr2/arm.py:166-171 | `close_gripper` sends min_grasp with the caller's `block`. |
| `PR2Arm.Arm.OpenGripperAsWritten` | pr2grasp/python/pr2/arm.py:173-178 | As written, `open_gripper` sends max_grasp and always blocks. |
| `PR2Arm.Arm.OpenGripper` | pr2grasp/python/pr2/arm.py:173-178 | Corrected, `open_gripper` sends max_grasp with the caller's `block`. |
| `PR2Arm.PosturesMirrored` | pr2grasp/python/pr2/arm.py:144-147 | The right arm's postures are the mirrors of the left arm's, and mirroring back gives the left arm's. |
| `PR2Arm.OpenGripperIgnoresBlock` | pr2grasp/python/pr2/arm.py:171-178 | With `block=False`, `open_gripper` as written still waits, unlike `close_gripper` and the corrected `open_gripper`. |
| `PR2Arm.JointNamesDistinct` | pr2grasp/python/pr2/arm.py:30-36 | An arm's joint names are pairwise distinct and differ from its gripper joint. |

## Left out

- The QP solvers, the belief dynamics and their linearization, the entropy and its gradient, and the covariance trace are not part of this model. They are parameters of the model datatypes. Solver exit flags other than 1, on which the source calls `exit(-1)`, become a `None` result and the `Exited`/`Aborted` outcomes.
- The preprocessor-generated wiring of the solver structs' stage fields is not modelled. The stage buffers are separate `array<real>` objects.
- Floating point is modelled as `real`: no rounding, overflow or NaN. The point-explore source uses `float`.
- `INFTY` and `M_PI` are a parameter and a decimal constant. The square roots of the voxel constructor's diagonal step lengths enter as non-negative parameters.
- `SlamBelief.MinimizeMeritFunction`: runs on a step budget (`fuel`, counted in solves), as do `SlamBelief.Run` and `SlamBelief.BeliefPenaltyCollocation`. The source never leaves its inner loop after a Fail verdict with a trust box of at least `min_trust_box_size`; the model reports this as `Unfinished`, and the penalty loop as `Stalled`. `max_sqp_iterations` is not read by the source.
- `ExploreLoop.ExploreCollocation`: `min_trust_box_size` is declared but not used by the source. The Hessian estimate is the zero vector `diaghess.reset()` leaves.
- `VoxelGrids.VoxelGrid.GetODF`: proves that the field is 0 at the object, INFINITY at occupied voxels, non-negative, and an upper bound (the triangle inequality along every free step). It does not prove that the field equals the shortest-path distance.
- The Fibonacci heap and its handle map are a map from voxel to key. `pq.top()` picks some entry of least key, since the heap's tie-breaking is not specified.
- `VoxelGrids.VoxelGrid.GetObstacles`: returns the occupied voxels rather than their centre points.
- The conversions between points and voxels (`voxel_from_point`, `point_from_voxel`, `is_valid_point`) truncate floats and are not modelled. A point enters `UpdateTSDF` as its voxel, or `None` when it is invalid.
- The voxel grid's `signed_distance_*` and `plot_*` functions, and the `Matrix` visualisation, are not modelled.
- The planar system's `belief_dynamics`, `linearize_*`, `obsfunc`, display and noise matrices are not modelled. Q and R appear only as `qDim` and `rDim`.
- `PR2Arm.Arm.constructor`: ROS and actionlib I/O are not modelled, and neither is the constructor's wait for the first joint state.
- The arm's trajectory execution, `go_to_pose`, `go_to_joints`, `fk`, `ik`, `get_pose`, `get_joints`, `_closer_joint_angles` and the module's test functions are not modelled. `go_to_posture` is represented by the joints `PostureJoints` selects.
- `PR2Arm.Arm.SetGripper`: the blocking wait for the gripper is not modelled. The result carries only the goal and `block`.

## Findings

| source | as written | input that shows it | evidently intended | confidence | as-written member | corrected member |
|---|---|---|---|---|---|---|
| cpp/point-explore/explore/explore.cpp:208-209 | The final stage's expansion point reads `X[T]` from a vector of T states | every well-shaped trajectory | read `X[T-1]`, the last state | not executed | `Explore.FinalZbarReadsPastEnd` | `Explore.Zbar` |
| cpp/point-explore/explore/explore.cpp:242-243 | The control bounds read `U[t][n*X_DIM+i]`, using the state stride | X_DIM = 3, U_DIM = 2, N = 2 reads `U[t][4]` of 4 entries; X_DIM = 2, U_DIM = 3 bounds particle 1 by particle 0's control | read `U[t][n*U_DIM+i]` | not executed | `Explore.ControlStrideOverrun` | `Explore.ControlBounds` |
| pr2grasp/python/pr2/arm.py:173-178 | `open_gripper` does not pass `block` on to `set_gripper`, so it always waits | `open_gripper(block=False)` | pass `block=block`, as `close_gripper` does | not executed | `PR2Arm.Arm.OpenGripperAsWritten` | `PR2Arm.Arm.OpenGripper` |
