/**
 * Locating a possibly collapsed bound on the fixed grid: the two grid lines that
 * sandwich it and the linear weights between them.
 */
module BoundaryTracker {
  import opened Vectors

  /**
   * Offsets (in grid cells, from each edge of the grid) of the outer and inner
   * grid lines around the bound, and the weight of each.
   */
  datatype Bracket = Bracket(outer: nat, inner: nat, weightInner: real, weightOuter: real)

  /**
   * Brackets the bound: with shift = boundBase - bound (non-negative), outer is the
   * floor of shift / dx, inner the grid line just inside the bound (the same line
   * when the bound sits on one), and weightInner the fractional part of shift / dx.
   */
  function BracketBoundary(boundBase: real, bound: real, dx: real): (b: Bracket)
    requires dx > 0.0 && bound <= boundBase
    ensures b.inner == b.outer || b.inner == b.outer + 1
    ensures 0.0 <= b.weightInner < 1.0 && b.weightInner + b.weightOuter == 1.0
    ensures b.weightInner == 0.0 <==> b.inner == b.outer
  {
    var outer := ((boundBase - bound) / dx).Floor;
    CellFraction(boundBase - bound, dx);
    BracketOfCells((boundBase - bound) / dx, (boundBase - bound - outer as real * dx) / dx)
  }

  /**
   * The bracket of a position q >= 0 measured in cells, given its fractional part w:
   * outer is the floor of q, inner its ceiling.
   */
  function BracketOfCells(q: real, w: real): (b: Bracket)
    requires q >= 0.0 && w == q - q.Floor as real
    ensures b.inner == b.outer || b.inner == b.outer + 1
    ensures 0.0 <= b.weightInner < 1.0 && b.weightInner + b.weightOuter == 1.0
    ensures b.weightInner == 0.0 <==> b.inner == b.outer
  {
    var outer := q.Floor;
    var inner := if q == outer as real then outer else outer + 1;
    Bracket(outer, inner, w, 1.0 - w)
  }

  /**
   * The bracket locates the bound: outer is the floor and inner the ceiling of the
   * shift in cells, and the weights interpolate the true position,
   * shift == (outer + weightInner) * dx.
   */
  lemma BracketLocatesBound(boundBase: real, bound: real, dx: real)
    requires dx > 0.0 && bound <= boundBase
    ensures var b := BracketBoundary(boundBase, bound, dx);
            && b.outer as real <= (boundBase - bound) / dx < b.outer as real + 1.0
            && (boundBase - bound) / dx <= b.inner as real < (boundBase - bound) / dx + 1.0
            && boundBase - bound == (b.outer as real + b.weightInner) * dx
  {
    CellFraction(boundBase - bound, dx);
  }

  /**
   * The arithmetic behind the bracket: with q = shift / dx and o its floor, the
   * remainder (shift - o * dx) / dx is the fractional part of q, it is zero exactly
   * on a grid line, and o cells plus that fraction of a cell are the shift.
   */
  lemma CellFraction(shift: real, dx: real)
    requires dx > 0.0 && shift >= 0.0
    ensures (shift / dx).Floor >= 0
    ensures (shift / dx).Floor as real <= shift / dx < (shift / dx).Floor as real + 1.0
    ensures (shift - (shift / dx).Floor as real * dx) / dx == shift / dx - (shift / dx).Floor as real
    ensures shift == ((shift / dx).Floor as real + (shift - (shift / dx).Floor as real * dx) / dx) * dx
  {
    var q := shift / dx;
    var o := q.Floor;
    assert q * dx == shift;
    assert (q - o as real) * dx == shift - o as real * dx;
  }

  /** Escaped mass, error side: the mass left of each sub-grid, weighted. */
  function EscapedLow(prev: seq<real>, b: Bracket): real
    requires b.outer <= b.inner <= |prev|
  {
    b.weightOuter * Sum(prev[..b.outer]) + b.weightInner * Sum(prev[..b.inner])
  }

  /** Escaped mass, correct side: the mass right of each sub-grid, weighted. */
  function EscapedHigh(prev: seq<real>, b: Bracket): real
    requires b.outer <= b.inner <= |prev|
  {
    b.weightOuter * Sum(prev[|prev| - b.outer..]) + b.weightInner * Sum(prev[|prev| - b.inner..])
  }

  /** With valid weights and a non-negative vector, neither side loses mass by escape. */
  lemma EscapedMassNonNegative(prev: seq<real>, b: Bracket)
    requires b.outer <= b.inner <= |prev|
    requires 0.0 <= b.weightInner <= 1.0 && b.weightInner + b.weightOuter == 1.0
    requires NonNegative(prev)
    ensures EscapedLow(prev, b) >= 0.0 && EscapedHigh(prev, b) >= 0.0
  {
    EscapedLowNonNegative(prev, b);
    EscapedHighNonNegative(prev, b);
  }

  lemma EscapedLowNonNegative(prev: seq<real>, b: Bracket)
    requires b.outer <= b.inner <= |prev|
    requires 0.0 <= b.weightInner <= 1.0 && b.weightInner + b.weightOuter == 1.0
    requires NonNegative(prev)
    ensures EscapedLow(prev, b) >= 0.0
  {
    WeightedPairNonNegative(prev[..b.outer], prev[..b.inner], b.weightOuter, b.weightInner);
  }

  lemma EscapedHighNonNegative(prev: seq<real>, b: Bracket)
    requires b.outer <= b.inner <= |prev|
    requires 0.0 <= b.weightInner <= 1.0 && b.weightInner + b.weightOuter == 1.0
    requires NonNegative(prev)
    ensures EscapedHigh(prev, b) >= 0.0
  {
    WeightedPairNonNegative(prev[|prev| - b.outer..], prev[|prev| - b.inner..], b.weightOuter, b.weightInner);
  }

  lemma WeightedPairNonNegative(u: seq<real>, v: seq<real>, wu: real, wv: real)
    requires NonNegative(u) && NonNegative(v) && wu >= 0.0 && wv >= 0.0
    ensures wu * Sum(u) + wv * Sum(v) >= 0.0
  {
    SumNonNegative(u);
    SumNonNegative(v);
    ProductNonNegative(wu, Sum(u));
    ProductNonNegative(wv, Sum(v));
  }

  /**
   * The new vector from the two sub-grid solutions: zero outside [outer, n - outer),
   * the weighted outer solution there, plus the weighted inner solution on
   * [inner, n - inner).
   */
  function Reconstruct(n: nat, b: Bracket, outerSol: seq<real>, innerSol: seq<real>): (p: seq<real>)
    requires b.outer <= b.inner && 2 * b.inner <= n
    requires |outerSol| == n - 2 * b.outer && |innerSol| == n - 2 * b.inner
    ensures |p| == n
  {
    seq(n, k requires 0 <= k < n =>
      if k < b.outer || n - b.outer <= k then 0.0
      else b.weightOuter * outerSol[k - b.outer]
           + (if b.inner <= k < n - b.inner then b.weightInner * innerSol[k - b.inner] else 0.0))
  }

  /**
   * The pointwise reconstruction is what the two slice additions into a zero vector
   * produce: `p[outer : n - outer] += wO * outerSol`, then
   * `p[inner : n - inner] += wI * innerSol`.
   */
  lemma ReconstructIsTwoSliceAdds(n: nat, b: Bracket, outerSol: seq<real>, innerSol: seq<real>)
    requires b.outer <= b.inner && 2 * b.inner <= n
    requires |outerSol| == n - 2 * b.outer && |innerSol| == n - 2 * b.inner
    ensures Reconstruct(n, b, outerSol, innerSol)
            == AddScaled(AddScaled(Zeros(n), b.outer, b.weightOuter, outerSol), b.inner, b.weightInner, innerSol)
  {
    var first := AddScaled(Zeros(n), b.outer, b.weightOuter, outerSol);
    var both := AddScaled(first, b.inner, b.weightInner, innerSol);
    var p := Reconstruct(n, b, outerSol, innerSol);
    assert |p| == |both| == n;
    forall k | 0 <= k < n
      ensures p[k] == both[k]
    {
      ReconstructEntry(n, b, outerSol, innerSol, k);
    }
  }

  /** Entry k of the two slice additions into a zero vector. */
  lemma ReconstructEntry(n: nat, b: Bracket, outerSol: seq<real>, innerSol: seq<real>, k: nat)
    requires b.outer <= b.inner && 2 * b.inner <= n && k < n
    requires |outerSol| == n - 2 * b.outer && |innerSol| == n - 2 * b.inner
    ensures Reconstruct(n, b, outerSol, innerSol)[k]
            == AddScaled(AddScaled(Zeros(n), b.outer, b.weightOuter, outerSol), b.inner, b.weightInner, innerSol)[k]
  {
    var zeros := Zeros(n);
    var first := AddScaled(zeros, b.outer, b.weightOuter, outerSol);
    var both := AddScaled(first, b.inner, b.weightInner, innerSol);
    var p := Reconstruct(n, b, outerSol, innerSol);
    if k < b.outer || n - b.outer <= k {
      assert p[k] == 0.0;
      assert both[k] == first[k] == zeros[k];
    } else if b.inner <= k < n - b.inner {
      assert p[k] == b.weightOuter * outerSol[k - b.outer] + b.weightInner * innerSol[k - b.inner];
      assert first[k] == zeros[k] + b.weightOuter * outerSol[k - b.outer];
      assert both[k] == first[k] + b.weightInner * innerSol[k - b.inner];
    } else {
      assert p[k] == b.weightOuter * outerSol[k - b.outer] + 0.0;
      assert b.outer <= k < b.outer + |outerSol|;
      assert first[k] == zeros[k] + b.weightOuter * outerSol[k - b.outer];
      assert both[k] == first[k];
    }
  }

  /** When the bound sits on a grid line the inner solution carries no weight: any inner vector gives the same result. */
  lemma OnGridLineInnerIgnored(n: nat, b: Bracket, outerSol: seq<real>, innerSol: seq<real>, other: seq<real>)
    requires b.outer <= b.inner && 2 * b.inner <= n
    requires |outerSol| == n - 2 * b.outer && |innerSol| == n - 2 * b.inner && |other| == |innerSol|
    requires b.weightInner == 0.0
    ensures Reconstruct(n, b, outerSol, innerSol) == Reconstruct(n, b, outerSol, other)
  {
  }

  /**
   * The factor applied to both outputs of a step when the bound is narrower than one
   * cell: 1 + (1 - bound / dx), which lies in (1, 2] for 0 <= bound < dx and is exactly
   * 1 at bound == dx.
   */
  function DegenerateFactor(bound: real, dx: real): (f: real)
    requires dx > 0.0
    ensures 0.0 <= bound < dx ==> 1.0 < f <= 2.0
    ensures bound == dx ==> f == 1.0
    ensures bound < dx ==> f > 1.0
  {
    var ratio := bound / dx;
    assert ratio * dx == bound;
    1.0 + (1.0 - ratio)
  }

  /** A step's output entry after the degenerate-channel correction. */
  function Renormalize(v: real, bound: real, dx: real): real
    requires dx > 0.0
  {
    if bound < dx then v * DegenerateFactor(bound, dx) else v
  }
}
