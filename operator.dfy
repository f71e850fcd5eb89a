/**
 * Assembly of the implicit-step operator (`f_mu_matrix`, `f_sigma_matrix` and the
 * identity) on the sub-grid of positions still inside the bounds.
 */
module Operator {
  import opened Grid
  import opened Dependence
  import opened Vectors

  /** A dense matrix, row by row. */
  type Matrix = seq<seq<real>>

  /**
   * The host's dense linear solver (`np.linalg.solve`), supplied by the caller. The
   * model relies only on its answer having the length of the right-hand side.
   */
  type LinearSolve = f: (Matrix, seq<real>) -> seq<real> | forall m, b :: |f(m, b)| == |b|
    witness (m: Matrix, b: seq<real>) => b

  predicate IsSquare(m: Matrix, n: nat) {
    |m| == n && forall i :: 0 <= i < n ==> |m[i]| == n
  }

  function Abs(k: int): nat { if k < 0 then -k else k }

  /** `np.diag(v, k)`: the square matrix of size |v| + |k| holding v on its k-th diagonal. */
  function Diag(v: seq<real>, k: int): (m: Matrix)
    ensures IsSquare(m, |v| + Abs(k))
    ensures forall i, j :: 0 <= i < |m| && 0 <= j < |m| ==>
              m[i][j] == if j - i == k then v[if k >= 0 then i else j] else 0.0
  {
    var n := |v| + Abs(k);
    seq(n, i requires 0 <= i < n =>
      seq(n, j requires 0 <= j < n => if j - i == k then v[if k >= 0 then i else j] else 0.0))
  }

  /** `np.eye(n)` */
  function Identity(n: nat): (m: Matrix)
    ensures IsSquare(m, n)
    ensures forall i, j :: 0 <= i < n && 0 <= j < n ==> m[i][j] == if i == j then 1.0 else 0.0
  {
    Diag(seq(n, _ => 1.0), 0)
  }

  function MatAdd(a: Matrix, b: Matrix, n: nat): (m: Matrix)
    requires IsSquare(a, n) && IsSquare(b, n)
    ensures IsSquare(m, n)
    ensures forall i, j :: 0 <= i < n && 0 <= j < n ==> m[i][j] == a[i][j] + b[i][j]
  {
    seq(n, i requires 0 <= i < n => seq(n, j requires 0 <= j < n => a[i][j] + b[i][j]))
  }

  function MatSub(a: Matrix, b: Matrix, n: nat): (m: Matrix)
    requires IsSquare(a, n) && IsSquare(b, n)
    ensures IsSquare(m, n)
    ensures forall i, j :: 0 <= i < n && 0 <= j < n ==> m[i][j] == a[i][j] - b[i][j]
  {
    seq(n, i requires 0 <= i < n => seq(n, j requires 0 <= j < n => a[i][j] - b[i][j]))
  }

  /** The drift coefficient of the central difference at x: 0.5 * dt / dx * mu(x, t). */
  function DriftTerm(mu: real, dep: Dependence, x: real, t: real, mesh: Mesh, math: Math): real
    requires mesh.Valid()
  {
    0.5 * mesh.dt / mesh.dx * ValueAt(mu, dep, x, t, math)
  }

  /** The noise coefficient at x: sigma(x, t)^2 * dt / dx^2. */
  function NoiseTerm(sigma: real, dep: Dependence, x: real, t: real, mesh: Mesh, math: Math): real
    requires mesh.Valid()
  {
    var s := ValueAt(sigma, dep, x, t, math);
    s * s * mesh.dt / (mesh.dx * mesh.dx)
  }

  /** `f_mu_matrix`: drift terms on the two off-diagonals, each taken at its column's position. */
  function MuMatrix(mu: real, dep: Dependence, xs: seq<real>, t: real, mesh: Mesh, math: Math): (m: Matrix)
    requires mesh.Valid() && |xs| >= 1
    ensures IsSquare(m, |xs|)
  {
    var n := |xs|;
    MatAdd(Diag(seq(n - 1, i requires 0 <= i < n - 1 => DriftTerm(mu, dep, xs[i + 1], t, mesh, math)), 1),
           Diag(seq(n - 1, i requires 0 <= i < n - 1 => -DriftTerm(mu, dep, xs[i], t, mesh, math)), -1), n)
  }

  /** `f_sigma_matrix`: the noise term on the diagonal and half of it, negated, on both off-diagonals. */
  function SigmaMatrix(sigma: real, dep: Dependence, xs: seq<real>, t: real, mesh: Mesh, math: Math): (m: Matrix)
    requires mesh.Valid() && |xs| >= 1
    ensures IsSquare(m, |xs|)
  {
    var n := |xs|;
    MatSub(MatSub(Diag(seq(n, i requires 0 <= i < n => NoiseTerm(sigma, dep, xs[i], t, mesh, math)), 0),
                  Diag(seq(n - 1, i requires 0 <= i < n - 1 => 0.5 * NoiseTerm(sigma, dep, xs[i + 1], t, mesh, math)), 1), n),
           Diag(seq(n - 1, i requires 0 <= i < n - 1 => 0.5 * NoiseTerm(sigma, dep, xs[i], t, mesh, math)), -1), n)
  }

  /**
   * The entry of the operator at offset i - j from the diagonal, given the drift and
   * noise coefficients of column j.
   */
  function StencilEntry(offset: int, drift: real, noise: real): real {
    if offset == 0 then 1.0 + noise
    else if offset == -1 then drift - 0.5 * noise
    else if offset == 1 then -drift - 0.5 * noise
    else 0.0
  }

  /** m is the n-by-n operator whose column j is built from drift[j] and noise[j] alone. */
  predicate ColumnStencil(m: Matrix, n: nat, drift: seq<real>, noise: seq<real>)
    requires |drift| == n && |noise| == n
  {
    IsSquare(m, n) &&
    forall i, j :: 0 <= i < n && 0 <= j < n ==> m[i][j] == StencilEntry(i - j, drift[j], noise[j])
  }

  /** The drift coefficient at every point of a sub-grid. */
  function Drifts(mu: real, dep: Dependence, xs: seq<real>, t: real, mesh: Mesh, math: Math): (d: seq<real>)
    requires mesh.Valid()
    ensures |d| == |xs|
  {
    seq(|xs|, j requires 0 <= j < |xs| => DriftTerm(mu, dep, xs[j], t, mesh, math))
  }

  /** The noise coefficient at every point of a sub-grid. */
  function Noises(sigma: real, dep: Dependence, xs: seq<real>, t: real, mesh: Mesh, math: Math): (s: seq<real>)
    requires mesh.Valid()
    ensures |s| == |xs|
  {
    seq(|xs|, j requires 0 <= j < |xs| => NoiseTerm(sigma, dep, xs[j], t, mesh, math))
  }

  /**
   * The implicit-step operator on the sub-grid xs: entry (i, j) is the stencil entry
   * at offset i - j built from column j's drift and noise coefficients.
   * `OperatorIsIdentityPlusDriftPlusNoise` shows that this is exactly
   * `np.eye(n) + f_mu_matrix(...) + f_sigma_matrix(...)`.
   */
  function DiffusionOperator(mu: real, muDep: Dependence, sigma: real, sigmaDep: Dependence,
                             xs: seq<real>, t: real, mesh: Mesh, math: Math): (m: Matrix)
    requires mesh.Valid() && |xs| >= 1
    ensures IsSquare(m, |xs|)
  {
    var n := |xs|;
    var d := Drifts(mu, muDep, xs, t, mesh, math);
    var s := Noises(sigma, sigmaDep, xs, t, mesh, math);
    seq(n, i requires 0 <= i < n => seq(n, j requires 0 <= j < n => StencilEntry(i - j, d[j], s[j])))
  }

  lemma OperatorIsColumnStencil(mu: real, muDep: Dependence, sigma: real, sigmaDep: Dependence,
                                xs: seq<real>, t: real, mesh: Mesh, math: Math)
    requires mesh.Valid() && |xs| >= 1
    ensures ColumnStencil(DiffusionOperator(mu, muDep, sigma, sigmaDep, xs, t, mesh, math), |xs|,
                          Drifts(mu, muDep, xs, t, mesh, math), Noises(sigma, sigmaDep, xs, t, mesh, math))
  {
  }

  /**
   * The operator is identity plus the drift matrix plus the noise matrix, as the
   * source assembles it with `np.diag`.
   */
  lemma OperatorIsIdentityPlusDriftPlusNoise(mu: real, muDep: Dependence, sigma: real, sigmaDep: Dependence,
                                             xs: seq<real>, t: real, mesh: Mesh, math: Math)
    requires mesh.Valid() && |xs| >= 1
    ensures DiffusionOperator(mu, muDep, sigma, sigmaDep, xs, t, mesh, math)
         == MatAdd(MatAdd(Identity(|xs|), MuMatrix(mu, muDep, xs, t, mesh, math), |xs|),
                   SigmaMatrix(sigma, sigmaDep, xs, t, mesh, math), |xs|)
  {
    var n := |xs|;
    var m := DiffusionOperator(mu, muDep, sigma, sigmaDep, xs, t, mesh, math);
    var e := MatAdd(MatAdd(Identity(n), MuMatrix(mu, muDep, xs, t, mesh, math), n),
                    SigmaMatrix(sigma, sigmaDep, xs, t, mesh, math), n);
    var d := Drifts(mu, muDep, xs, t, mesh, math);
    var s := Noises(sigma, sigmaDep, xs, t, mesh, math);
    forall i, j | 0 <= i < n && 0 <= j < n
      ensures e[i][j] == StencilEntry(i - j, d[j], s[j])
    {
    }
    StencilUnique(m, e, n, d, s);
  }

  /**
   * The operator's entries: tridiagonal, 1 + noise on the diagonal, and drift minus
   * half the noise above it, minus drift minus half the noise below it, each taken at
   * the position of the entry's column.
   */
  lemma OperatorEntries(mu: real, muDep: Dependence, sigma: real, sigmaDep: Dependence,
                        xs: seq<real>, t: real, mesh: Mesh, math: Math)
    requires mesh.Valid() && |xs| >= 1
    ensures var m := DiffusionOperator(mu, muDep, sigma, sigmaDep, xs, t, mesh, math);
      && (forall i, j :: 0 <= i < |xs| && 0 <= j < |xs| && (j > i + 1 || i > j + 1) ==> m[i][j] == 0.0)
      && (forall i :: 0 <= i < |xs| ==>
            m[i][i] == 1.0 + NoiseTerm(sigma, sigmaDep, xs[i], t, mesh, math))
      && (forall i :: 0 <= i < |xs| - 1 ==>
            m[i][i + 1] == DriftTerm(mu, muDep, xs[i + 1], t, mesh, math)
                           - 0.5 * NoiseTerm(sigma, sigmaDep, xs[i + 1], t, mesh, math))
      && (forall i :: 0 <= i < |xs| - 1 ==>
            m[i + 1][i] == -DriftTerm(mu, muDep, xs[i], t, mesh, math)
                           - 0.5 * NoiseTerm(sigma, sigmaDep, xs[i], t, mesh, math))
  {
  }

  /** Column j of a matrix. */
  function Column(m: Matrix, n: nat, j: nat): seq<real>
    requires IsSquare(m, n) && j < n
  {
    seq(n, i requires 0 <= i < n => m[i][j])
  }

  /** An interior column of a column stencil sums to one: its drift and noise parts cancel. */
  lemma StencilColumnSum(m: Matrix, n: nat, drift: seq<real>, noise: seq<real>, j: nat)
    requires |drift| == n && |noise| == n && ColumnStencil(m, n, drift, noise)
    requires 0 < j < n - 1
    ensures Sum(Column(m, n, j)) == 1.0
  {
    var col := Column(m, n, j);
    forall i | 0 <= i < n && (i < j - 1 || j + 2 <= i)
      ensures col[i] == 0.0
    {
      assert col[i] == StencilEntry(i - j, drift[j], noise[j]);
    }
    SumOfWindow(col, j - 1, j + 2);
    var d, s := drift[j], noise[j];
    assert col[j - 1] == StencilEntry(-1, d, s);
    assert col[j] == StencilEntry(0, d, s);
    assert col[j + 1] == StencilEntry(1, d, s);
    assert col[j - 1..j + 2] == [d - 0.5 * s, 1.0 + s, -d - 0.5 * s];
    assert Sum([-d - 0.5 * s]) == -d - 0.5 * s + Sum([]);
    assert Sum([1.0 + s, -d - 0.5 * s]) == 1.0 + s + Sum([-d - 0.5 * s]);
  }

  /**
   * Every interior column of the operator sums to exactly one: the drift and noise
   * contributions of column j are all taken at x_j and cancel, so the implicit step
   * neither creates nor destroys mass away from the sub-grid's edges.
   */
  lemma InteriorColumnSumIsOne(mu: real, muDep: Dependence, sigma: real, sigmaDep: Dependence,
                               xs: seq<real>, t: real, mesh: Mesh, math: Math, j: nat)
    requires mesh.Valid() && 0 < j < |xs| - 1
    ensures Sum(Column(DiffusionOperator(mu, muDep, sigma, sigmaDep, xs, t, mesh, math), |xs|, j)) == 1.0
  {
    var m := DiffusionOperator(mu, muDep, sigma, sigmaDep, xs, t, mesh, math);
    OperatorIsColumnStencil(mu, muDep, sigma, sigmaDep, xs, t, mesh, math);
    StencilColumnSum(m, |xs|, Drifts(mu, muDep, xs, t, mesh, math), Noises(sigma, sigmaDep, xs, t, mesh, math), j);
  }

  /** `m[1:-1, 1:-1]`: the matrix without its first and last row and column. */
  function InnerBlock(m: Matrix, n: nat): (r: Matrix)
    requires IsSquare(m, n) && n >= 2
    ensures IsSquare(r, n - 2)
    ensures forall i, j :: 0 <= i < n - 2 && 0 <= j < n - 2 ==> r[i][j] == m[i + 1][j + 1]
  {
    seq(n - 2, i requires 0 <= i < n - 2 => m[i + 1][1..n - 1])
  }

  /** Two column stencils with the same coefficients are the same matrix. */
  lemma StencilUnique(a: Matrix, b: Matrix, n: nat, drift: seq<real>, noise: seq<real>)
    requires |drift| == n && |noise| == n
    requires ColumnStencil(a, n, drift, noise) && ColumnStencil(b, n, drift, noise)
    ensures a == b
  {
    forall i | 0 <= i < n
      ensures a[i] == b[i]
    {
      forall j | 0 <= j < n
        ensures a[i][j] == b[i][j]
      {
        assert a[i][j] == StencilEntry(i - j, drift[j], noise[j]);
        assert b[i][j] == StencilEntry(i - j, drift[j], noise[j]);
      }
    }
  }

  /** The inner block of a column stencil is the stencil of the inner coefficients. */
  lemma InnerBlockOfStencil(m: Matrix, n: nat, drift: seq<real>, noise: seq<real>)
    requires n >= 2 && |drift| == n && |noise| == n && ColumnStencil(m, n, drift, noise)
    ensures ColumnStencil(InnerBlock(m, n), n - 2, drift[1..n - 1], noise[1..n - 1])
  {
    var r := InnerBlock(m, n);
    forall i, j | 0 <= i < n - 2 && 0 <= j < n - 2
      ensures r[i][j] == StencilEntry(i - j, drift[1..n - 1][j], noise[1..n - 1][j])
    {
      assert r[i][j] == m[i + 1][j + 1];
    }
  }

  /**
   * Cutting the outer row and column off the operator gives exactly the operator
   * assembled on the sub-grid one cell narrower on each side, so the inner solve
   * of a step is the implicit step on the inner sub-grid.
   */
  lemma InnerBlockIsInnerOperator(mu: real, muDep: Dependence, sigma: real, sigmaDep: Dependence,
                                  xs: seq<real>, t: real, mesh: Mesh, math: Math)
    requires mesh.Valid() && |xs| >= 3
    ensures InnerBlock(DiffusionOperator(mu, muDep, sigma, sigmaDep, xs, t, mesh, math), |xs|)
         == DiffusionOperator(mu, muDep, sigma, sigmaDep, xs[1..|xs| - 1], t, mesh, math)
  {
    var n := |xs|;
    var inner := xs[1..n - 1];
    var m := DiffusionOperator(mu, muDep, sigma, sigmaDep, xs, t, mesh, math);
    var d := Drifts(mu, muDep, xs, t, mesh, math);
    var s := Noises(sigma, sigmaDep, xs, t, mesh, math);
    OperatorIsColumnStencil(mu, muDep, sigma, sigmaDep, xs, t, mesh, math);
    OperatorIsColumnStencil(mu, muDep, sigma, sigmaDep, inner, t, mesh, math);
    InnerBlockOfStencil(m, n, d, s);
    assert d[1..n - 1] == Drifts(mu, muDep, inner, t, mesh, math);
    assert s[1..n - 1] == Noises(sigma, sigmaDep, inner, t, mesh, math);
    StencilUnique(InnerBlock(m, n), DiffusionOperator(mu, muDep, sigma, sigmaDep, inner, t, mesh, math),
                  n - 2, d[1..n - 1], s[1..n - 1]);
  }
}
