/**
 * How drift, noise and the bound depend on position and time: the string-tagged
 * `Dependence` record of the source, as closed variants.
 */
module Dependence {
  import opened Vectors

  /**
   * The host math library's transcendental functions. They are supplied by the
   * caller; the model states nothing about them.
   */
  datatype Math = Math(sin: real -> real, cos: real -> real, exp: real -> real)

  /** Drift and noise presets: `linear_xt` and `sinx_cost`. */
  datatype Shape = LinearXT | SinxCost

  /** A drift or noise dependence with its x and t coefficients. */
  datatype Dependence = Dependence(shape: Shape, x: real, t: real)

  /** Bound presets: `constant`, `collapsing_linear`, `collapsing_exponential`. */
  datatype BoundShape = Constant | CollapsingLinear | CollapsingExponential

  /** A bound dependence with its time coefficient (the collapse rate). */
  datatype BoundDependence = BoundDependence(shape: BoundShape, t: real)

  /** The value of a drift or noise quantity with constant part `base` at position x and time t. */
  function ValueAt(base: real, dep: Dependence, x: real, t: real, math: Math): real
  {
    match dep.shape
    case LinearXT => base + dep.x * x + dep.t * t
    case SinxCost => base + dep.x * math.sin(x) + dep.t * math.cos(t)
  }

  /**
   * The bound at time t (`f_bound_t`). A constant bound stays at its base; a linearly
   * collapsing bound moves towards zero at its rate and stops at zero; an
   * exponentially collapsing bound decays by the caller's exponential.
   */
  function BoundAt(bound: real, dep: BoundDependence, t: real, math: Math): (b: real)
    ensures dep.shape == Constant ==> b == bound
    ensures dep.shape == CollapsingLinear ==> b >= 0.0
    ensures dep.shape == CollapsingLinear && bound - dep.t * t >= 0.0 ==> b == bound - dep.t * t
    ensures dep.shape == CollapsingLinear && bound - dep.t * t < 0.0 ==> b == 0.0
    ensures dep.shape == CollapsingLinear && bound >= 0.0 && dep.t * t >= 0.0 ==> b <= bound
    ensures dep.shape == CollapsingExponential ==> b == bound * math.exp(-dep.t * t)
  {
    match dep.shape
    case Constant => bound
    case CollapsingLinear => if bound - dep.t * t > 0.0 then bound - dep.t * t else 0.0
    case CollapsingExponential => bound * math.exp(-dep.t * t)
  }

  /** A linearly collapsing bound with a non-negative rate never grows as time advances. */
  lemma LinearCollapseNonIncreasing(bound: real, rate: real, t1: real, t2: real, math: Math)
    requires rate >= 0.0 && t1 <= t2
    ensures BoundAt(bound, BoundDependence(CollapsingLinear, rate), t2, math)
         <= BoundAt(bound, BoundDependence(CollapsingLinear, rate), t1, math)
  {
    ProductNonNegative(rate, t2 - t1);
    assert rate * t2 == rate * t1 + rate * (t2 - t1);
  }
}
