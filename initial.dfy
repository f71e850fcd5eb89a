/** The probability vector at t = 0 (`f_initial_condition`). */
module InitialConditionBuilder {
  import opened Vectors

  /** The start presets; `Unrecognised` stands for any other tag, which yields all zeros. */
  datatype InitialKind = PointSourceCenter | Uniform | Unrecognised

  /**
   * The start vector on a grid of n points (n odd): unit mass at the centre index,
   * or 1/n at every index, or zeros for an unrecognised tag. This is the intended
   * uniform start; `InitialConditionAsWritten` is the source's integer-division one.
   */
  function InitialCondition(kind: InitialKind, n: nat): (p: seq<real>)
    requires n % 2 == 1
    ensures |p| == n
    ensures kind == PointSourceCenter ==>
              p[(n - 1) / 2] == 1.0 && forall i :: 0 <= i < n && i != (n - 1) / 2 ==> p[i] == 0.0
    ensures kind == Uniform ==> forall i :: 0 <= i < n ==> p[i] * n as real == 1.0
    ensures kind == Unrecognised ==> forall i :: 0 <= i < n ==> p[i] == 0.0
  {
    match kind
    case PointSourceCenter => Zeros(n)[(n - 1) / 2 := 1.0]
    case Uniform => seq(n, _ => 1.0 / n as real)
    case Unrecognised => Zeros(n)
  }

  /** Both recognised start vectors carry total mass one; an unrecognised tag carries none. */
  lemma InitialMass(kind: InitialKind, n: nat)
    requires n % 2 == 1
    ensures Sum(InitialCondition(kind, n)) == if kind == Unrecognised then 0.0 else 1.0
    ensures NonNegative(InitialCondition(kind, n))
  {
    var p := InitialCondition(kind, n);
    match kind
    case PointSourceCenter =>
      var c := (n - 1) / 2;
      SumOfWindow(p, c, c + 1);
      assert p[c..c + 1] == [1.0];
      assert Sum([1.0]) == 1.0 + Sum([]);
    case Uniform =>
      SumConstant(n, 1.0 / n as real);
    case Unrecognised =>
      SumConstant(n, 0.0);
  }

  /**
   * The start vector exactly as written: under Python 2, `1/(len(x))` divides two
   * integers, so the uniform entry is the integer quotient of 1 by n.
   */
  function InitialConditionAsWritten(kind: InitialKind, n: nat): (p: seq<real>)
    requires n % 2 == 1
    ensures |p| == n
    ensures kind != Uniform ==> p == InitialCondition(kind, n)
  {
    match kind
    case Uniform => seq(n, _ => (1 / n) as real)
    case _ => InitialCondition(kind, n)
  }

  /** On any grid of more than one point the as-written uniform start holds no mass at all. */
  lemma UniformAsWrittenIsEmpty(n: nat)
    requires n % 2 == 1 && n > 1
    ensures Sum(InitialConditionAsWritten(Uniform, n)) == 0.0
    ensures Sum(InitialCondition(Uniform, n)) == 1.0
  {
    assert 1 / n == 0;
    SumConstant(n, 0.0);
    InitialMass(Uniform, n);
  }
}
