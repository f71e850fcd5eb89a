/** Vectors of reals as the solver's numpy arrays, and the sums taken over them. */
module Vectors {

  /** `np.zeros(n)` */
  function Zeros(n: nat): (z: seq<real>)
    ensures |z| == n && forall i :: 0 <= i < n ==> z[i] == 0.0
  {
    seq(n, _ => 0.0)
  }

  /** The sum of a vector (`np.sum`, or the builtin `sum`), taken left to right. */
  function Sum(s: seq<real>): real
    decreases |s|
  {
    if |s| == 0 then 0.0 else s[0] + Sum(s[1..])
  }

  predicate NonNegative(s: seq<real>) {
    forall i :: 0 <= i < |s| ==> s[i] >= 0.0
  }

  lemma {:induction false} SumAppend(a: seq<real>, b: seq<real>)
    ensures Sum(a + b) == Sum(a) + Sum(b)
    decreases |a|
  {
    if |a| > 0 {
      assert (a + b)[1..] == a[1..] + b;
      SumAppend(a[1..], b);
    } else {
      assert a + b == b;
    }
  }

  lemma {:induction false} SumNonNegative(s: seq<real>)
    requires NonNegative(s)
    ensures Sum(s) >= 0.0
    decreases |s|
  {
    if |s| > 0 {
      SumNonNegative(s[1..]);
    }
  }

  lemma ProductNonNegative(a: real, c: real)
    requires a >= 0.0 && c >= 0.0
    ensures a * c >= 0.0
  {
  }

  /** A vector of n copies of v sums to n * v. */
  lemma {:induction false} SumConstant(n: nat, v: real)
    ensures Sum(seq(n, _ => v)) == n as real * v
    decreases n
  {
    if n > 0 {
      assert seq(n, _ => v)[1..] == seq(n - 1, _ => v);
      SumConstant(n - 1, v);
    }
  }

  /** A vector that is zero outside [lo, hi) sums to the sum of that window. */
  lemma SumOfWindow(s: seq<real>, lo: nat, hi: nat)
    requires lo <= hi <= |s|
    requires forall i :: 0 <= i < |s| && (i < lo || hi <= i) ==> s[i] == 0.0
    ensures Sum(s) == Sum(s[lo..hi])
  {
    ZerosSumToZero(s[..lo]);
    ZerosSumToZero(s[hi..]);
    assert s == s[..lo] + s[lo..hi] + s[hi..];
    SumAppend(s[..lo] + s[lo..hi], s[hi..]);
    SumAppend(s[..lo], s[lo..hi]);
  }

  lemma {:induction false} ZerosSumToZero(s: seq<real>)
    requires forall i :: 0 <= i < |s| ==> s[i] == 0.0
    ensures Sum(s) == 0.0
    decreases |s|
  {
    if |s| > 0 {
      ZerosSumToZero(s[1..]);
    }
  }

  /**
   * `a[lo : lo + len(v)] += w * v` on a value: v scaled by w is added to the
   * window of s that starts at lo, every other entry is kept.
   */
  function AddScaled(s: seq<real>, lo: nat, w: real, v: seq<real>): (r: seq<real>)
    requires lo + |v| <= |s|
    ensures |r| == |s|
  {
    seq(|s|, k requires 0 <= k < |s| => if lo <= k < lo + |v| then s[k] + w * v[k - lo] else s[k])
  }

  /** The slice update `a[lo : lo + len(v)] += w * v`, in place on an array. */
  method AddScaledSlice(a: array<real>, lo: nat, w: real, v: seq<real>)
    requires lo + |v| <= a.Length
    modifies a
    ensures a[..] == AddScaled(old(a[..]), lo, w, v)
  {
    var j := 0;
    while j < |v|
      invariant 0 <= j <= |v|
      invariant forall k :: 0 <= k < a.Length ==>
                  a[k] == if lo <= k < lo + j then old(a[k]) + w * v[k - lo] else old(a[k])
    {
      a[lo + j] := a[lo + j] + w * v[j];
      j := j + 1;
    }
  }
}
