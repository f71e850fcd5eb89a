/**
 * The fixed spatial grid `x_list` and the step sizes `dx`, `dt`. They are
 * configuration globals of the solver; here they are explicit values.
 */
module Grid {

  /** Step sizes in space and time. */
  datatype Mesh = Mesh(dx: real, dt: real) {
    predicate Valid() { dx > 0.0 && dt > 0.0 }
  }

  /** Number of grid points of a grid with `half` points on each side of zero. */
  function Size(half: nat): nat { 2 * half + 1 }

  /** The symmetric position grid: 2 * half + 1 points spaced dx apart, centred on zero. */
  function XList(half: nat, dx: real): (xs: seq<real>)
    ensures |xs| == Size(half)
  {
    seq(Size(half), i => (i - half) as real * dx)
  }

  /** The grid is centred on zero and mirror-symmetric, so x_list[N-1-k] == -x_list[k]. */
  lemma XListSymmetric(half: nat, dx: real, k: nat)
    requires k < Size(half)
    ensures XList(half, dx)[half] == 0.0
    ensures XList(half, dx)[Size(half) - 1 - k] == -XList(half, dx)[k]
  {
    var xs := XList(half, dx);
    assert xs[Size(half) - 1 - k] == (half - k) as real * dx;
    assert xs[k] == (k - half) as real * dx;
  }
}
