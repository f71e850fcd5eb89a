/**
 * Probability current through the boundary row of a sub-grid (`f_mu_flux`,
 * `f_sigma_flux`), evaluated on the full grid x_list.
 */
module Flux {
  import opened Grid
  import opened Dependence

  /** `np.sign` */
  function Sign(x: real): (r: real)
    ensures r == 1.0 || r == -1.0 || r == 0.0
    ensures r * x >= 0.0 && (r == 0.0 <==> x == 0.0)
  {
    if x > 0.0 then 1.0 else if x < 0.0 then -1.0 else 0.0
  }

  lemma SignOdd(x: real)
    ensures Sign(-x) == -Sign(x)
  {
  }

  /** Drift part of the current at grid index idx: outward when the drift points towards that side. */
  function MuFlux(idx: nat, mu: real, dep: Dependence, xList: seq<real>, t: real, mesh: Mesh, math: Math): real
    requires mesh.Valid() && idx < |xList|
  {
    0.5 * mesh.dt / mesh.dx * Sign(xList[idx]) * ValueAt(mu, dep, xList[idx], t, math)
  }

  /** Noise part of the current at grid index idx: always outward, so never negative. */
  function SigmaFlux(idx: nat, sigma: real, dep: Dependence, xList: seq<real>, t: real, mesh: Mesh, math: Math): (f: real)
    requires mesh.Valid() && idx < |xList|
    ensures f >= 0.0
  {
    var s := ValueAt(sigma, dep, xList[idx], t, math);
    assert s * s >= 0.0;
    assert mesh.dt / (mesh.dx * mesh.dx) > 0.0 by {
      assert mesh.dx * mesh.dx > 0.0;
    }
    0.5 * mesh.dt / (mesh.dx * mesh.dx) * (s * s)
  }

  /**
   * With drift and noise that do not depend on position, the two edges of the
   * symmetric grid see mirror currents: equal noise currents and opposite drift
   * currents at indices k and N-1-k.
   */
  lemma FluxMirror(half: nat, k: nat, mu: real, muDep: Dependence, sigma: real, sigmaDep: Dependence,
                   t: real, mesh: Mesh, math: Math)
    requires mesh.Valid() && k < Size(half)
    requires muDep.x == 0.0 && sigmaDep.x == 0.0
    ensures MuFlux(Size(half) - 1 - k, mu, muDep, XList(half, mesh.dx), t, mesh, math)
         == -MuFlux(k, mu, muDep, XList(half, mesh.dx), t, mesh, math)
    ensures SigmaFlux(Size(half) - 1 - k, sigma, sigmaDep, XList(half, mesh.dx), t, mesh, math)
         == SigmaFlux(k, sigma, sigmaDep, XList(half, mesh.dx), t, mesh, math)
  {
    var xs := XList(half, mesh.dx);
    XListSymmetric(half, mesh.dx, k);
    var x := xs[k];
    assert xs[Size(half) - 1 - k] == -x;
    assert ValueAt(mu, muDep, -x, t, math) == ValueAt(mu, muDep, x, t, math);
    assert ValueAt(sigma, sigmaDep, -x, t, math) == ValueAt(sigma, sigmaDep, x, t, math);
    SignOdd(x);
  }
}
