/**
 * The finite-difference Fokker-Planck integrator (`DDM_pdf_general`): a time loop
 * that advances the probability vector by implicit steps on the sub-grid inside a
 * possibly collapsing bound, and books escaped mass and boundary current as the
 * per-step probabilities of a correct and an erroneous decision.
 */
module FokkerPlanck {
  import opened Results
  import opened Vectors
  import opened Grid
  import opened Dependence
  import opened TaskPerturbation
  import opened InitialConditionBuilder
  import opened BoundaryTracker
  import opened Operator
  import opened Flux

  /** Remaining mass at or below which the channel counts as drained and the loop exits. */
  const DrainThreshold: real := 0.0001

  /**
   * Everything one run reads: the grid (2 * half + 1 points), the step sizes, the
   * time points, the drift, noise and bound with their dependences, the start
   * preset, the task with the reference drift mu0 and kernel bin dtPK, and the
   * host's math functions and linear solver.
   */
  datatype Config = Config(
    half: nat, mesh: Mesh, times: seq<real>,
    mu: real, muDep: Dependence,
    sigma: real, sigmaDep: Dependence,
    boundBase: real, boundDep: BoundDependence,
    initial: InitialKind,
    task: Task, mu0: real, dtPK: real,
    math: Math, solve: LinearSolve)
  {
    predicate Valid() { mesh.Valid() && dtPK > 0.0 }

    /** Number of grid points. */
    function N(): nat { Size(half) }

    /** Index of the last time point: the loop runs steps 0 .. LastStep() - 1. */
    function LastStep(): nat { if |times| == 0 then 0 else |times| - 1 }
  }

  /** What one implicit step produces before it is booked. */
  datatype StepOutcome = StepOutcome(
    next: seq<real>,
    escapedCorr: real, escapedErr: real,
    fluxCorr: real, fluxErr: real,
    bound: real)

  datatype Phase = Running | Drained

  /** The loop's state: the current vector, both output arrays, and whether the loop has exited early. */
  datatype SolverState = SolverState(pdf: seq<real>, corr: seq<real>, err: seq<real>, phase: Phase)

  /** The two output sequences: per-step probability of a correct and of an erroneous decision. */
  datatype Outputs = Outputs(corr: seq<real>, err: seq<real>)

  predicate Shaped(c: Config, s: SolverState) {
    |s.pdf| == c.N() && |s.corr| == |c.times| && |s.err| == |c.times|
  }

  /** Total current through the boundary row at grid index idx: drift part plus noise part. */
  function BoundaryFlux(c: Config, mu: real, t: real, idx: nat): real
    requires c.Valid() && idx < c.N()
  {
    var xList := XList(c.half, c.mesh.dx);
    MuFlux(idx, mu, c.muDep, xList, t, c.mesh, c.math) + SigmaFlux(idx, c.sigma, c.sigmaDep, xList, t, c.mesh, c.math)
  }

  /**
   * The current leaving through the upper (top) or lower edge of the solved
   * sub-grids: each solution's edge entry times the flux at that grid row, mixed
   * with the bracket's weights.
   */
  function EdgeCurrent(c: Config, mu: real, t: real, b: Bracket, outerSol: seq<real>, innerSol: seq<real>, top: bool): real
    requires c.Valid() && b.outer <= b.inner && 2 * b.inner < c.N()
    requires |outerSol| == c.N() - 2 * b.outer && |innerSol| == c.N() - 2 * b.inner
  {
    var n, o, i := c.N(), b.outer, b.inner;
    if top then
      b.weightOuter * outerSol[|outerSol| - 1] * BoundaryFlux(c, mu, t, n - 1 - o)
        + b.weightInner * innerSol[|innerSol| - 1] * BoundaryFlux(c, mu, t, n - 1 - i)
    else
      b.weightOuter * outerSol[0] * BoundaryFlux(c, mu, t, o)
        + b.weightInner * innerSol[0] * BoundaryFlux(c, mu, t, i)
  }

  /**
   * The outer and inner implicit systems of a step and their solutions: the operator
   * on the outer sub-grid against prev[outer : N - outer], and, off a grid line, its
   * inner block against prev[inner : N - inner]; on a grid line the inner solution
   * is the outer one.
   */
  function SubGridSolutions(c: Config, t: real, mu: real, prev: seq<real>, b: Bracket): (sols: (seq<real>, seq<real>))
    requires c.Valid() && |prev| == c.N() && b.outer <= b.inner && 2 * b.inner < c.N()
    requires b.inner == b.outer || b.inner == b.outer + 1
    ensures |sols.0| == c.N() - 2 * b.outer && |sols.1| == c.N() - 2 * b.inner
    ensures b.inner == b.outer ==> sols.1 == sols.0
  {
    var n, o, i := c.N(), b.outer, b.inner;
    var xs := XList(c.half, c.mesh.dx)[o..n - o];
    var op := DiffusionOperator(mu, c.muDep, c.sigma, c.sigmaDep, xs, t, c.mesh, c.math);
    var outerSol := c.solve(op, prev[o..n - o]);
    (outerSol, if i == o then outerSol else c.solve(InnerBlock(op, |xs|), prev[i..n - i]))
  }

  /**
   * One implicit step at time point k with drift mu from the vector prev: locate the
   * bound, solve on the outer sub-grid and, off a grid line, on the inner one, and
   * rebuild the vector from the two solutions.
   */
  function Step(c: Config, k: nat, mu: real, prev: seq<real>): (r: Result<StepOutcome>)
    requires c.Valid() && k < |c.times| && |prev| == c.N()
    ensures r.Ok? ==> |r.value.next| == c.N()
  {
    var n := c.N();
    var t := c.times[k];
    var bound := BoundAt(c.boundBase, c.boundDep, t, c.math);
    if bound > c.boundBase then Err(InvalidBoundTransition)
    else
      var b := BracketBoundary(c.boundBase, bound, c.mesh.dx);
      var o, i := b.outer, b.inner;
      if 2 * i >= n then Err(ChannelOutsideGrid)
      else
        var sols := SubGridSolutions(c, t, mu, prev, b);
        var outerSol, innerSol := sols.0, sols.1;
        Ok(StepOutcome(
          Reconstruct(n, b, outerSol, innerSol),
          EscapedHigh(prev, b), EscapedLow(prev, b),
          EdgeCurrent(c, mu, t, b, outerSol, innerSol, true),
          EdgeCurrent(c, mu, t, b, outerSol, innerSol, false),
          bound))
  }

  /**
   * How a step ends: with an invalid bound transition exactly when the bound exceeds
   * its base value; with the channel outside the grid exactly when the bound is
   * valid but its inner grid line leaves no interior; otherwise with the bound it
   * used, a vector that is zero outside the outer band, and (for a non-negative
   * vector) non-negative escaped mass on both sides.
   */
  lemma StepCases(c: Config, k: nat, mu: real, prev: seq<real>)
    requires c.Valid() && k < |c.times| && |prev| == c.N()
    ensures var r := Step(c, k, mu, prev);
            var bound := BoundAt(c.boundBase, c.boundDep, c.times[k], c.math);
            && (r == Err(InvalidBoundTransition) <==> bound > c.boundBase)
            && (r == Err(ChannelOutsideGrid) <==>
                  bound <= c.boundBase && 2 * BracketBoundary(c.boundBase, bound, c.mesh.dx).inner >= c.N())
            && (r.Ok? ==> r.value.bound == bound)
    ensures var r := Step(c, k, mu, prev);
            r.Ok? ==>
              var b := BracketBoundary(c.boundBase, r.value.bound, c.mesh.dx);
              && (forall j :: 0 <= j < c.N() && (j < b.outer || c.N() - b.outer <= j) ==> r.value.next[j] == 0.0)
              && (NonNegative(prev) ==> r.value.escapedCorr >= 0.0 && r.value.escapedErr >= 0.0)
  {
    var r := Step(c, k, mu, prev);
    if r.Ok? && NonNegative(prev) {
      EscapedMassNonNegative(prev, BracketBoundary(c.boundBase, r.value.bound, c.mesh.dx));
    }
  }

  /**
   * Entry k of an output after a step: the step's escaped mass and boundary current
   * added to it, then the narrow-channel correction applied; every other entry kept.
   */
  function Deposited(s: seq<real>, k: nat, escaped: real, current: real, bound: real, dx: real): (r: seq<real>)
    requires k < |s| && dx > 0.0
    ensures |r| == |s| && r[k] == Renormalize(s[k] + escaped + current, bound, dx)
    ensures forall j :: 0 <= j < |s| && j != k ==> r[j] == s[j]
  {
    s[k := Renormalize(s[k] + escaped + current, bound, dx)]
  }

  /**
   * One pass of the loop body at time index k: an early exit leaves everything as it
   * is; otherwise the step's escaped mass and current are added to entry k + 1 of
   * each output, which is then corrected when the channel is narrower than one cell.
   */
  function Advance(c: Config, k: nat, s: SolverState): (r: Result<SolverState>)
    requires c.Valid() && k + 1 < |c.times| && Shaped(c, s)
    ensures r.Ok? ==> Shaped(c, r.value)
    ensures r.Ok? ==> forall j :: 0 <= j < |c.times| && j != k + 1 ==>
                        r.value.corr[j] == s.corr[j] && r.value.err[j] == s.err[j]
    ensures s.phase == Drained ==> r == Ok(s)
  {
    if s.phase == Drained then Ok(s)
    else
      match EffectiveDrift(c.task, c.times[k], c.mu, c.mu0, c.dtPK)
      case Err(e) => Err(e)
      case Ok(mu) =>
        if Sum(s.pdf) <= DrainThreshold then Ok(s.(phase := Drained))
        else
          match Step(c, k, mu, s.pdf)
          case Err(e) => Err(e)
          case Ok(o) =>
            Ok(SolverState(
              o.next,
              Deposited(s.corr, k + 1, o.escapedCorr, o.fluxCorr, o.bound, c.mesh.dx),
              Deposited(s.err, k + 1, o.escapedErr, o.fluxErr, o.bound, c.mesh.dx),
              Running))
  }

  /** One more pass from a reachable state is `Advance` applied to it. */
  lemma StateAtNext(c: Config, k: nat, s: SolverState)
    requires c.Valid() && k + 1 <= c.LastStep()
    requires StateAt(c, k) == Ok(s)
    ensures StateAt(c, k + 1) == Advance(c, k, s)
  {
  }

  /** A state that is an error stays that error for one more pass. */
  lemma StateAfterError(c: Config, k: nat, e: SolverError)
    requires c.Valid() && k + 1 <= c.LastStep()
    requires StateAt(c, k) == Err(e)
    ensures StateAt(c, k + 1) == Err(e)
  {
  }

  /**
   * A running pass that passes the drain check and steps without error writes
   * entry k + 1 of both outputs and moves on to the step's new vector.
   */
  lemma AdvanceSteps(c: Config, k: nat, s: SolverState, mu: real, o: StepOutcome)
    requires c.Valid() && k + 1 < |c.times| && Shaped(c, s) && s.phase == Running
    requires EffectiveDrift(c.task, c.times[k], c.mu, c.mu0, c.dtPK) == Ok(mu)
    requires Sum(s.pdf) > DrainThreshold && Step(c, k, mu, s.pdf) == Ok(o)
    ensures Advance(c, k, s)
            == Ok(SolverState(o.next,
                              Deposited(s.corr, k + 1, o.escapedCorr, o.fluxCorr, o.bound, c.mesh.dx),
                              Deposited(s.err, k + 1, o.escapedErr, o.fluxErr, o.bound, c.mesh.dx),
                              Running))
  {
  }

  /** A running pass whose drift or step fails ends in that error. */
  lemma AdvanceFails(c: Config, k: nat, s: SolverState, e: SolverError)
    requires c.Valid() && k + 1 < |c.times| && Shaped(c, s) && s.phase == Running
    requires EffectiveDrift(c.task, c.times[k], c.mu, c.mu0, c.dtPK) == Err(e)
          || (&& EffectiveDrift(c.task, c.times[k], c.mu, c.mu0, c.dtPK).Ok?
              && Sum(s.pdf) > DrainThreshold
              && Step(c, k, EffectiveDrift(c.task, c.times[k], c.mu, c.mu0, c.dtPK).value, s.pdf) == Err(e))
    ensures Advance(c, k, s) == Err(e)
  {
  }

  /** A running pass that finds the mass at or below the threshold marks the state drained. */
  lemma AdvanceDrains(c: Config, k: nat, s: SolverState)
    requires c.Valid() && k + 1 < |c.times| && Shaped(c, s) && s.phase == Running
    requires EffectiveDrift(c.task, c.times[k], c.mu, c.mu0, c.dtPK).Ok?
    requires Sum(s.pdf) <= DrainThreshold
    ensures Advance(c, k, s) == Ok(s.(phase := Drained))
  {
  }

  /** The state before the loop: the start vector and two all-zero outputs. */
  function Initial(c: Config): (s: SolverState)
    requires c.Valid()
    ensures Shaped(c, s)
  {
    SolverState(InitialCondition(c.initial, c.N()), Zeros(|c.times|), Zeros(|c.times|), Running)
  }

  /**
   * The loop's state after k passes. Entry 0 of both outputs is never written, and
   * no entry beyond k has been written yet.
   */
  function StateAt(c: Config, k: nat): (r: Result<SolverState>)
    requires c.Valid() && k <= c.LastStep()
    ensures r.Ok? ==> Shaped(c, r.value)
    ensures r.Ok? && |c.times| > 0 ==> r.value.corr[0] == 0.0 && r.value.err[0] == 0.0
    ensures r.Ok? ==> forall j :: k < j < |c.times| ==> r.value.corr[j] == 0.0 && r.value.err[j] == 0.0
    decreases k
  {
    if k == 0 then Ok(Initial(c))
    else
      match StateAt(c, k - 1)
      case Err(e) => Err(e)
      case Ok(s) => Advance(c, k - 1, s)
  }

  /** The result of a whole run: both output sequences, or the error that aborted it. */
  function Simulate(c: Config): (r: Result<Outputs>)
    requires c.Valid()
    ensures r.Ok? ==> |r.value.corr| == |c.times| && |r.value.err| == |c.times|
    ensures r.Ok? && |c.times| > 0 ==> r.value.corr[0] == 0.0 && r.value.err[0] == 0.0
  {
    match StateAt(c, c.LastStep())
    case Err(e) => Err(e)
    case Ok(s) => Ok(Outputs(s.corr, s.err))
  }

  /** The run's result is the outputs of the state after the last pass. */
  lemma FinalStateIsResult(c: Config, s: SolverState)
    requires c.Valid() && StateAt(c, c.LastStep()) == Ok(s)
    ensures Simulate(c) == Ok(Outputs(s.corr, s.err))
  {
  }

  /** Once drained, the loop state no longer changes. */
  lemma {:induction false} DrainedPersists(c: Config, k: nat, s: SolverState, k2: nat)
    requires c.Valid() && k <= k2 <= c.LastStep()
    requires StateAt(c, k) == Ok(s) && s.phase == Drained
    ensures StateAt(c, k2) == Ok(s)
    decreases k2 - k
  {
    if k < k2 {
      StateAtNext(c, k, s);
      DrainedPersists(c, k + 1, s, k2);
    }
  }

  /** An error ends the run: every later state is that error, and so is the result. */
  lemma {:induction false} ErrorPersists(c: Config, k: nat, e: SolverError, k2: nat)
    requires c.Valid() && k <= k2 <= c.LastStep()
    requires StateAt(c, k) == Err(e)
    ensures StateAt(c, k2) == Err(e)
    decreases k2 - k
  {
    if k < k2 {
      StateAfterError(c, k, e);
      ErrorPersists(c, k + 1, e, k2);
    }
  }

  lemma ErrorIsFinal(c: Config, k: nat, e: SolverError)
    requires c.Valid() && k <= c.LastStep()
    requires StateAt(c, k) == Err(e)
    ensures Simulate(c) == Err(e)
  {
    ErrorPersists(c, k, e, c.LastStep());
  }

  /**
   * The early exit: when the loop has drained after k passes, the run's result is
   * the state at that point, and every later entry of both outputs stays zero.
   */
  lemma DrainedIsFinal(c: Config, k: nat, s: SolverState)
    requires c.Valid() && k <= c.LastStep()
    requires StateAt(c, k) == Ok(s) && s.phase == Drained
    ensures Simulate(c) == Ok(Outputs(s.corr, s.err))
    ensures forall j :: k < j < |c.times| ==> s.corr[j] == 0.0 && s.err[j] == 0.0
  {
    DrainedPersists(c, k, s, c.LastStep());
  }

  /**
   * An unrecognised start preset holds no mass, so the run drains on its first pass
   * (if the task's drift can be read there) and both outputs are all zeros.
   */
  lemma UnrecognisedStartYieldsNothing(c: Config)
    requires c.Valid() && c.initial == Unrecognised && |c.times| >= 2
    requires EffectiveDrift(c.task, c.times[0], c.mu, c.mu0, c.dtPK).Ok?
    ensures Simulate(c) == Ok(Outputs(Zeros(|c.times|), Zeros(|c.times|)))
  {
    var s0 := Initial(c);
    InitialMass(Unrecognised, c.N());
    var s1 := s0.(phase := Drained);
    assert StateAt(c, 1) == Advance(c, 0, s0) == Ok(s1);
    DrainedIsFinal(c, 1, s1);
  }

  /**
   * The bound never rises above its base value for a constant bound, nor for a
   * linear collapse from a non-negative base at a non-negative rate, so those runs
   * never stop with an invalid bound transition.
   */
  lemma ShrinkingBoundsNeverFail(c: Config, k: nat, mu: real, prev: seq<real>)
    requires c.Valid() && k < |c.times| && |prev| == c.N()
    requires c.boundDep.shape == Constant
          || (c.boundDep.shape == CollapsingLinear && c.boundBase >= 0.0 && c.boundDep.t * c.times[k] >= 0.0)
    ensures Step(c, k, mu, prev) != Err(InvalidBoundTransition)
  {
  }

  /**
   * Off a grid line the inner system is the operator on the inner sub-grid, and its
   * right-hand side, prev[inner : N - inner], has that sub-grid's length.
   */
  lemma InnerSystemIsInnerStep(c: Config, k: nat, mu: real, prev: seq<real>, b: Bracket)
    requires c.Valid() && k < |c.times| && |prev| == c.N()
    requires b.inner == b.outer + 1 && 2 * b.inner < c.N()
    ensures var n := c.N();
            var xList := XList(c.half, c.mesh.dx);
            var t := c.times[k];
            && |prev[b.inner..n - b.inner]| == n - 2 * b.outer - 2
            && InnerBlock(DiffusionOperator(mu, c.muDep, c.sigma, c.sigmaDep, xList[b.outer..n - b.outer], t, c.mesh, c.math),
                          n - 2 * b.outer)
               == DiffusionOperator(mu, c.muDep, c.sigma, c.sigmaDep, xList[b.inner..n - b.inner], t, c.mesh, c.math)
  {
    var n := c.N();
    var xList := XList(c.half, c.mesh.dx);
    var xs := xList[b.outer..n - b.outer];
    assert xs[1..|xs| - 1] == xList[b.inner..n - b.inner];
    InnerBlockIsInnerOperator(mu, c.muDep, c.sigma, c.sigmaDep, xs, c.times[k], c.mesh, c.math);
  }

  /**
   * On a grid line the inner solve has no effect on the step: whatever the inner
   * solution, the rebuilt vector and the current booked at both edges are those of
   * a double solve whose inner weight is zero.
   */
  lemma OnGridLineStepIgnoresInner(c: Config, mu: real, t: real, bound: real,
                                   outerSol: seq<real>, innerSol: seq<real>, other: seq<real>)
    requires c.Valid() && bound <= c.boundBase
    requires var b := BracketBoundary(c.boundBase, bound, c.mesh.dx);
             && b.inner == b.outer && 2 * b.inner < c.N()
             && |outerSol| == c.N() - 2 * b.outer && |innerSol| == |outerSol| && |other| == |outerSol|
    ensures var b := BracketBoundary(c.boundBase, bound, c.mesh.dx);
            && b.weightInner == 0.0
            && Reconstruct(c.N(), b, outerSol, innerSol) == Reconstruct(c.N(), b, outerSol, other)
            && EdgeCurrent(c, mu, t, b, outerSol, innerSol, true) == EdgeCurrent(c, mu, t, b, outerSol, other, true)
            && EdgeCurrent(c, mu, t, b, outerSol, innerSol, false) == EdgeCurrent(c, mu, t, b, outerSol, other, false)
  {
    var b := BracketBoundary(c.boundBase, bound, c.mesh.dx);
    OnGridLineInnerIgnored(c.N(), b, outerSol, innerSol, other);
  }

  /**
   * The body of one pass after the drain check: locate the bound, solve the outer
   * and (off a grid line) the inner system, and rebuild the vector by two in-place
   * slice additions into a fresh zero array.
   */
  method ImplicitStep(c: Config, k: nat, mu: real, prev: seq<real>) returns (r: Result<StepOutcome>)
    requires c.Valid() && k < |c.times| && |prev| == c.N()
    ensures r == Step(c, k, mu, prev)
  {
    var n := c.N();
    var t := c.times[k];
    var bound := BoundAt(c.boundBase, c.boundDep, t, c.math);
    if bound > c.boundBase {
      return Err(InvalidBoundTransition);
    }
    var b := BracketBoundary(c.boundBase, bound, c.mesh.dx);
    var o, i := b.outer, b.inner;
    if 2 * i >= n {
      return Err(ChannelOutsideGrid);
    }
    var sols := SubGridSolutions(c, t, mu, prev, b);
    var outerSol, innerSol := sols.0, sols.1;
    var curr := new real[n](_ => 0.0);
    assert curr[..] == Zeros(n);
    AddScaledSlice(curr, o, b.weightOuter, outerSol);
    AddScaledSlice(curr, i, b.weightInner, innerSol);
    ReconstructIsTwoSliceAdds(n, b, outerSol, innerSol);
    assert curr[..] == Reconstruct(n, b, outerSol, innerSol);
    var fluxCorr := EdgeCurrent(c, mu, t, b, outerSol, innerSol, true);
    var fluxErr := EdgeCurrent(c, mu, t, b, outerSol, innerSol, false);
    r := Ok(StepOutcome(curr[..], EscapedHigh(prev, b), EscapedLow(prev, b), fluxCorr, fluxErr, bound));
  }

  /**
   * Adds a step's escaped mass and boundary current to entry k of an output array,
   * then applies the narrow-channel correction to that entry.
   */
  method Deposit(a: array<real>, k: nat, escaped: real, current: real, bound: real, dx: real)
    requires k < a.Length && dx > 0.0
    modifies a
    ensures a[..] == Deposited(old(a[..]), k, escaped, current, bound, dx)
  {
    ghost var total := a[k] + escaped + current;
    a[k] := a[k] + escaped;
    a[k] := a[k] + current;
    if bound < dx {
      a[k] := a[k] * DegenerateFactor(bound, dx);
    }
    assert a[k] == Renormalize(total, bound, dx);
  }

  /** How one pass of the time loop ends. */
  datatype PassEnd = Continue(next: seq<real>) | Stop | Abort(error: SolverError)

  /** A pass's end and the outputs it leaves agree with `Advance` on the state before it. */
  predicate PassAgrees(c: Config, k: nat, s: SolverState, e: PassEnd, corr: seq<real>, err: seq<real>)
    requires c.Valid() && k + 1 < |c.times| && Shaped(c, s)
  {
    match e
    case Continue(next) => Advance(c, k, s) == Ok(SolverState(next, corr, err, Running))
    case Stop => Advance(c, k, s) == Ok(s.(phase := Drained)) && corr == s.corr && err == s.err
    case Abort(x) => Advance(c, k, s) == Err(x)
  }

  /**
   * The body of the time loop at index k: read the task's drift (which can fail),
   * stop once the vector's mass is at or below the threshold, otherwise take an
   * implicit step and deposit its escaped mass and boundary current into entry
   * k + 1 of both output arrays.
   */
  method Pass(c: Config, k: nat, pdf: seq<real>, probCorr: array<real>, probErr: array<real>) returns (e: PassEnd)
    requires c.Valid() && k + 1 < |c.times| && |pdf| == c.N()
    requires probCorr.Length == |c.times| && probErr.Length == |c.times| && probCorr != probErr
    modifies probCorr, probErr
    ensures PassAgrees(c, k, SolverState(pdf, old(probCorr[..]), old(probErr[..]), Running), e, probCorr[..], probErr[..])
  {
    ghost var before := SolverState(pdf, probCorr[..], probErr[..], Running);
    var drift := EffectiveDrift(c.task, c.times[k], c.mu, c.mu0, c.dtPK);
    if drift.Err? {
      AdvanceFails(c, k, before, drift.error);
      return Abort(drift.error);
    }
    if Sum(pdf) <= DrainThreshold {
      AdvanceDrains(c, k, before);
      return Stop;
    }
    var step := ImplicitStep(c, k, drift.value, pdf);
    if step.Err? {
      AdvanceFails(c, k, before, step.error);
      return Abort(step.error);
    }
    var o := step.value;
    Deposit(probCorr, k + 1, o.escapedCorr, o.fluxCorr, o.bound, c.mesh.dx);
    Deposit(probErr, k + 1, o.escapedErr, o.fluxErr, o.bound, c.mesh.dx);
    AdvanceSteps(c, k, before, drift.value, o);
    e := Continue(o.next);
  }

  /**
   * `DDM_pdf_general`: runs the time loop in place on two output arrays and a
   * probability vector, exiting early once the channel is drained, and returns
   * exactly what the step-by-step definition `Simulate` describes.
   */
  method PdfGeneral(c: Config) returns (r: Result<Outputs>)
    requires c.Valid()
    ensures r == Simulate(c)
  {
    var pdfCurr := InitialCondition(c.initial, c.N());
    var probCorr := new real[|c.times|](_ => 0.0);
    var probErr := new real[|c.times|](_ => 0.0);
    assert probCorr[..] == Zeros(|c.times|) && probErr[..] == Zeros(|c.times|);
    var it := 0;
    while it + 1 < |c.times|
      invariant it <= c.LastStep() && probCorr != probErr
      invariant StateAt(c, it) == Ok(SolverState(pdfCurr, probCorr[..], probErr[..], Running))
      decreases |c.times| - it
    {
      ghost var before := SolverState(pdfCurr, probCorr[..], probErr[..], Running);
      StateAtNext(c, it, before);
      var e := Pass(c, it, pdfCurr, probCorr, probErr);
      match e
      case Abort(x) =>
        ErrorIsFinal(c, it + 1, x);
        return Err(x);
      case Stop =>
        DrainedIsFinal(c, it + 1, before.(phase := Drained));
        return Ok(Outputs(probCorr[..], probErr[..]));
      case Continue(next) =>
        pdfCurr := next;
        it := it + 1;
    }
    assert it == c.LastStep();
    FinalStateIsResult(c, SolverState(pdfCurr, probCorr[..], probErr[..], Running));
    r := Ok(Outputs(probCorr[..], probErr[..]));
  }
}
