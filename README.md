# Drift-diffusion solver core, in Dafny

This project models the finite-difference solver at the heart of `DDM_functions.py`.
The solver integrates the Fokker-Planck equation of a drift-diffusion decision model
on a fixed symmetric grid. Each pass of its time loop does the following:

- reads the drift for the current task;
- stops once the probability left in the channel is at most 0.0001;
- evaluates the (possibly collapsing) bound;
- brackets the bound between two grid lines with linear weights;
- solves the implicit operator (identity + drift matrix + noise matrix) on an outer sub-grid and, off a grid line, on an inner sub-grid one cell narrower;
- rebuilds the probability vector as the weighted sum of the two solutions;
- books the escaped mass and the boundary current into entry `i_t + 1` of two output arrays, one for correct and one for erroneous decisions;
- rescales both entries when the channel is narrower than one cell.

The helpers are modelled with it:

- the bound shapes (`f_bound_t`);
- the operator assembly (`f_mu_matrix`, `f_sigma_matrix`);
- the boundary currents (`f_mu_flux`, `f_sigma_flux`);
- the start vectors (`f_initial_condition`);
- the task drift (`f_mu1_task`).

Modules:

- `Results`: the three ways a run aborts and the `Result`/`Option` wrappers.
- `Vectors`: sums over vectors and the slice update `a[lo:hi] += w * v`, as a function and as an in-place array method.
- `Grid`: the symmetric grid `x_list` and the step sizes.
- `Dependence`: the string-tagged dependence records, as closed datatypes; `f_bound_t`.
- `TaskPerturbation`: `f_mu1_task`, with Python's `int()` truncation and list indexing.
- `InitialConditionBuilder`: `f_initial_condition`.
- `BoundaryTracker`: bracketing, escaped mass, reconstruction and the narrow-channel factor.
- `Operator`: `np.diag`, `f_mu_matrix`, `f_sigma_matrix`, the implicit operator and its inner block.
- `Flux`: `f_mu_flux`, `f_sigma_flux`.
- `FokkerPlanck`: `DDM_pdf_general`.

`DDM_pdf_general` is imperative, and so is its model `FokkerPlanck.PdfGeneral`:

- the two output arrays are Dafny arrays, updated in place by `Deposit`;
- the new vector is built by two in-place slice additions into a fresh zero array (`ImplicitStep`, `Vectors.AddScaledSlice`);
- the time loop carries the invariant that its state equals `StateAt(c, it)`.

`StateAt` is a step-by-step functional definition: `Initial`, then `Advance` once per pass. `Simulate`, its value after the last pass, is what `PdfGeneral` is proved to return. The properties of a run are proved as lemmas about that definition.

The host's dense solver `np.linalg.solve` is a parameter of the run: a function value whose answer has the length of its right-hand side. So are `sin`, `cos` and `exp`.

The grid globals of the source become fields of `FokkerPlanck.Config`:

- the half-width of the grid, `dx`, `dt`, the time points, `mu_0` and the kernel bin `dt_mu_PK`;
- `x_list` is `Grid.XList(half, dx)`, the symmetric odd-length grid centred on zero.

## Model

| member | source | states |
|---|---|---|
| Dependence.BoundAt | DDM_functions.py:159-165 | a constant bound is the base value; a linear collapse is `max(b - c*t, 0)`, so never negative and at most b when b >= 0 and c*t >= 0; an exponential collapse is `b * exp(-c*t)` |
| Dependence.LinearCollapseNonIncreasing | DDM_functions.py:162-163 | a linearly collapsing bound with rate c >= 0 never grows as time advances |
| TaskPerturbation.Truncate | DDM_functions.py:392 | Python's `int()` on a float: the floor for non-negative values and the ceiling for negative ones, that is truncation toward zero |
| TaskPerturbation.PyIndex | DDM_functions.py:392 | a list lookup succeeds exactly for -len <= i < len, with negative indices counting from the end |
| TaskPerturbation.EffectiveDrift | DDM_functions.py:388-410 | the drift of a step: fixed duration keeps mu_base; the duration task keeps it before its duration and gives exactly 0 from then on; a pulse adds mu_0 * 0.15 only strictly inside (onset, onset + 0.1); the kernel task fails exactly when `int(t/dt_mu_PK)` is out of Python's index range and otherwise, for t >= 0, adds the kernel entry at the floor of t/dt_mu_PK |
| TaskPerturbation.PulseWindowIsOpen | DDM_functions.py:407 | the pulse is off at both its onset and its end |
| InitialConditionBuilder.InitialCondition | DDM_functions.py:210-220 | a point source puts 1 at index (N-1)/2 and 0 elsewhere; uniform puts 1/N everywhere, the intended value and not the Python 2 one of line 216 (see Findings); an unrecognised tag gives all zeros |
| InitialConditionBuilder.InitialMass | DDM_functions.py:210-220 | both recognised start vectors are non-negative with total mass one; an unrecognised tag has mass zero |
| InitialConditionBuilder.UniformAsWrittenIsEmpty | DDM_functions.py:216 | under Python 2 the uniform start as written has total mass 0 on any grid of more than one point, while the intended one has mass 1 |
| Grid.XListSymmetric | DDM_functions.py:189-199 | models an assumption, not source code: the grid `x_list` (defined outside this model) is taken to be centred on zero with `x_list[N-1-k] == -x_list[k]`; the cited flux lines are where the solver indexes it at paired edges |
| BoundaryTracker.BracketBoundary | DDM_functions.py:93-99 | inner is outer or outer + 1; 0 <= weight_inner < 1 and the weights sum to 1; weight_inner is 0 exactly when inner == outer |
| BoundaryTracker.BracketOfCells | DDM_functions.py:96-99 | for a position q >= 0 in cells with its fractional part as the inner weight, the floor/ceiling pair and the weights satisfy the same bracket properties |
| BoundaryTracker.BracketLocatesBound | DDM_functions.py:94-98 | outer is the floor and inner the ceiling of shift/dx, and `shift == (outer + weight_inner) * dx`: the weights interpolate the true bound |
| BoundaryTracker.CellFraction | DDM_functions.py:97-98 | `(shift - outer*dx)/dx` is the fractional part of shift/dx, and the floor of shift/dx is non-negative for a non-negative shift |
| BoundaryTracker.EscapedMassNonNegative | DDM_functions.py:116-117 | for a non-negative vector and weights in [0, 1] that sum to 1, the escaped mass booked on each side is non-negative |
| BoundaryTracker.ReconstructIsTwoSliceAdds | DDM_functions.py:118-120 | the pointwise rebuilt vector equals two slice additions into a zero vector: the weighted outer solution at offset outer, then the weighted inner solution at offset inner |
| BoundaryTracker.OnGridLineInnerIgnored | DDM_functions.py:112-113 | with the bound on a grid line, the inner solution carries no weight: any inner vector yields the same rebuilt vector |
| BoundaryTracker.DegenerateFactor | DDM_functions.py:130-132 | the narrow-channel factor `1 + (1 - bound/dx)` is in (1, 2] for 0 <= bound < dx, above 1 whenever bound < dx, and exactly 1 at bound == dx |
| Vectors.AddScaledSlice | DDM_functions.py:119-120 | the in-place slice update leaves the array equal to `AddScaled` of its old contents: v scaled by w added on the window, every other entry kept |
| Operator.Diag | DDM_functions.py:141 | `np.diag(v, k)` is square of size len(v) + abs(k) and holds v on the k-th diagonal, zero elsewhere |
| Operator.OperatorIsIdentityPlusDriftPlusNoise | DDM_functions.py:107-109 | the stencil operator equals `np.eye(n) + f_mu_matrix(...) + f_sigma_matrix(...)` entry for entry |
| Operator.OperatorEntries | DDM_functions.py:138-151 | the operator is tridiagonal, with diagonal 1 + s(x_i)^2 dt/dx^2, entry (i, i+1) = 0.5 dt/dx m(x_{i+1}) - 0.5 s(x_{i+1})^2 dt/dx^2 and entry (i+1, i) = -0.5 dt/dx m(x_i) - 0.5 s(x_i)^2 dt/dx^2 |
| Operator.InteriorColumnSumIsOne | DDM_functions.py:139-151 | every interior column of the operator sums to exactly 1, because all coefficients of column j are taken at x_j |
| Operator.InnerBlockIsInnerOperator | DDM_functions.py:115 | `matrix[1:-1, 1:-1]` is exactly the operator assembled on the sub-grid one cell narrower on each side |
| Flux.Sign | DDM_functions.py:189 | `np.sign` is -1, 0 or 1, agrees with the sign of its argument, and is 0 only at 0 |
| Flux.SigmaFlux | DDM_functions.py:196-201 | the noise part of the boundary current is never negative |
| Flux.FluxMirror | DDM_functions.py:186-201 | with drift and noise independent of x, the two edges of the symmetric grid see opposite drift currents and equal noise currents |
| FokkerPlanck.SubGridSolutions | DDM_functions.py:102-115 | the outer solution has length N - 2*outer, the inner one N - 2*inner, and on a grid line the inner solution is the outer one |
| FokkerPlanck.StepCases | DDM_functions.py:91-120 | a step fails with an invalid bound transition exactly when the bound exceeds its base, and with the channel outside the grid exactly when the bound is valid but `2*inner >= N`; otherwise it reports the bound it used, its new vector is zero outside [outer, N - outer), and for a non-negative vector both escaped masses are non-negative |
| FokkerPlanck.InnerSystemIsInnerStep | DDM_functions.py:102-115 | off a grid line, the inner system is the operator on the inner sub-grid, and its right-hand side `prev[inner:N-inner]` has length N - 2*outer - 2 |
| FokkerPlanck.OnGridLineStepIgnoresInner | DDM_functions.py:112-129 | with the bound on a grid line the inner weight is 0, and the rebuilt vector and the current booked at both edges are the same for every inner solution: the step is the double solve with the inner weight forced to 0 |
| FokkerPlanck.ShrinkingBoundsNeverFail | DDM_functions.py:91-93 | a constant bound, or a linear collapse from a non-negative base with c*t >= 0, never trips the bound assertion |
| FokkerPlanck.Deposited | DDM_functions.py:116-132 | the booked entry is the old entry plus escaped mass plus current, rescaled when the channel is narrower than one cell; every other entry is unchanged |
| FokkerPlanck.Advance | DDM_functions.py:80-132 | one pass writes at most entry k + 1 of each output and keeps the shapes; a drained state stays as it is |
| FokkerPlanck.StateAt | DDM_functions.py:64-132 | after k passes, entry 0 of both outputs is still 0 and no entry beyond k has been written |
| FokkerPlanck.Simulate | DDM_functions.py:66-134 | both outputs have len(t_list) entries, and entry 0 of each is 0 |
| FokkerPlanck.DrainedIsFinal | DDM_functions.py:89-123 | after the early exit the run's result is the state at exit, and every later output entry stays 0 |
| FokkerPlanck.ErrorIsFinal | DDM_functions.py:80-134 | an error in any pass is the result of the whole run |
| FokkerPlanck.UnrecognisedStartYieldsNothing | DDM_functions.py:218-220 | an unrecognised start preset drains on the first pass, and both outputs are all zeros |
| FokkerPlanck.ImplicitStep | DDM_functions.py:91-129 | the in-place bracketing, solves and slice reconstruction return exactly the step of the functional definition, including its two error cases |
| FokkerPlanck.Deposit | DDM_functions.py:116-132 | the in-place `+=` and `*=` on one output entry leave the array equal to `Deposited` of its old contents |
| FokkerPlanck.Pass | DDM_functions.py:83-132 | one pass of the loop body ends, and leaves the output arrays, exactly as `Advance` describes: continuing with the new vector, stopping on drain, or aborting with the error |
| FokkerPlanck.PdfGeneral | DDM_functions.py:34-134 | the imperative time loop with its early exit returns exactly `Simulate`, the run described pass by pass (started from the corrected uniform vector; see Left out) |

## Left out

- The linear solve (`np.linalg.solve`, DDM_functions.py:111, 115) is a caller-supplied function. Its only known property is that its answer has the length of the right-hand side; `M*y == b` is not stated. So mass conservation, non-negativity and symmetry of the solved vector are not proved. Proving them would need an assumed property of the foreign solver.
- `sin`, `cos` and `exp` (the `sinx_cost` shapes and the exponential collapse) are caller-supplied functions with no stated properties.
- Dependence.BoundAt: for the exponential collapse nothing beyond the defining equation is stated, because `exp` is abstract.
- The analytic solutions, the fit objectives, the `Dependence` class's dynamic attributes and the driver script `DDM_main.py` are not part of this model. They are closed-form floating-point numerics, optimiser objectives and orchestration.
- `DDM_parameters.py` is not part of this model. Its globals (`dx`, `dt`, `x_list`, `t_list`, `mu_0`, `dt_mu_PK`, the preset lists) are fields of the configuration; `x_list` is taken to be the symmetric grid of odd length centred on zero.
- The preset lookups `setting_list[setting_index]` and `task_list[task_index]`, and the `len(params) in [8, 9]` assertion, are not modelled; the configuration holds the resolved presets directly. Task index 0 is taken to be the fixed-duration task, so `EffectiveDrift` gives mu_base there, just as skipping line 87 does.
- Unknown tags print a message and continue with `None`. The model has closed datatypes for the drift, noise, bound and task shapes, so those paths do not exist. The one unknown tag that does not crash the source, an unknown start preset, is kept as `Unrecognised` (all zeros).
- Floating point is modelled by exact reals, so rounding is not modelled, and neither is an overflow in the flux or factor arithmetic.
- FokkerPlanck.PdfGeneral: the source's `break` is an early `return` of the current outputs. The loop body lives in the method `Pass`. `pdf_list_prev` is the value of the current vector at the start of the pass, not a separate array.
- FokkerPlanck.Deposit: the escaped-mass `+=` (lines 116-117) and the current `+=` (lines 126-129) are applied to one output and then the other, not interleaved across the two arrays as in the source. The final contents are the same.
- FokkerPlanck.Step: when `2*inner >= N` the source fails at its first read of an empty solution: `pdf_list_temp_outer[-1]` on line 126 when `2*outer >= N`, or `pdf_list_temp_inner[-1]` on line 127 when `N - 2*outer == 1`; a numpy that rejects empty systems fails earlier, at line 111 or 115. The model reports `ChannelOutsideGrid` before any output is touched; the whole run aborts in either case.
- FokkerPlanck.Simulate: the run starts from `InitialCondition`, whose uniform start is the intended 1/N, not the all-zero vector that line 216 produces under Python 2. With the as-written start the source takes the `break` of line 123 on its first pass and returns zeros; the model does not simulate that run (only `InitialConditionBuilder.UniformAsWrittenIsEmpty` states the as-written start).

## Findings

| source | as written | input that shows it | evidently intended | confidence | as-written member | corrected member |
|---|---|---|---|---|---|---|
| DDM_functions.py:216 | `1/(len(x))*np.ones(...)` under Python 2 divides two integers, so every entry of the uniform start is 0 | any grid with len(x) = N > 1, e.g. N = 3: the start vector is [0, 0, 0] with total mass 0, so (inferred, not proved) the run drains on its first pass | 1/N at every point, total mass 1 | not executed | InitialConditionBuilder.UniformAsWrittenIsEmpty | InitialConditionBuilder.InitialMass |
