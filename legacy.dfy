/**
 * The earlier engine, kept at the root of the repository: the same three slots and descriptors,
 * but a single rectangle rule among its methods (Rectangle, Trapezoid, Monte Carlo), other error messages,
 * and only the closure-over-uniform-domain combination implemented; every other combination
 * that passes the checks reaches `todo!()`.
 *
 * `LegacyEvaluate` is the reference both legacy front-ends (the `&mut` one in `LegacyStructure`
 * and the by-value one in `LegacyComputeUnit`) are proved against.
 */
module Legacy {
  import opened Prelude
  import opened Parameters
  import opened Kernels
  import Engine

  /** The numerical integration methods of the earlier engine. */
  datatype LegacyMethod =
    | Rectangle
    | Trapezoid
    | MonteCarlo(nSample: nat)

  /** Why a computation failed. */
  datatype IntegraalError =
    | /** One or more parameters are missing. */
      MissingParameters(msg: string)
    | /** Specified parameters are conflicting or ambiguous. */
      InconsistentParameters(msg: string)

  const LegacyMissingMessage: string := "cannot compute integral - one or more parameter is missing"
  const LegacyLengthMessage: string := "todo"

  /**
   * The slot contents on which the earlier `compute` panics (`todo!()`) instead of returning:
   * every check passed and the function is given by values, or the domain is explicit, or the
   * method is Monte Carlo.
   */
  predicate LegacyAborts(d: Option<DomainDescriptor>, f: Option<FunctionDescriptor>, m: Option<LegacyMethod>)
  {
    && AllSet(d, f, m)
    && Consistent(d.value, f.value)
    && (f.value.Values? || d.value.Explicit? || m.value.MonteCarlo?)
  }

  /**
   * One trapezoid panel as the earlier engine writes it, `step * (min(y1, y2) + |y1 - y2| / 2)`,
   * summed over `(1..k)` with the closure evaluated at `start + step * id`.
   */
  function LegacyTrapezoidSum(c: real -> real, start: real, step: real, k: nat): real
  {
    if k <= 1 then 0.0
    else
      var y1, y2 := c(Node(start, step, k - 2)), c(Node(start, step, k - 1));
      LegacyTrapezoidSum(c, start, step, k - 1) + step * (Min(y1, y2) + Abs(y1 - y2) / 2.0)
  }

  /** What the earlier `compute` returns for the given slots. */
  function LegacyEvaluate(d: Option<DomainDescriptor>, f: Option<FunctionDescriptor>, m: Option<LegacyMethod>)
    : (r: Result<real, IntegraalError>)
    requires !LegacyAborts(d, f, m)
    // a missing slot is reported first, whatever else is wrong
    ensures !AllSet(d, f, m) ==> r == Err(MissingParameters(LegacyMissingMessage))
    // a length mismatch is reported exactly when all slots are set and the values do not fit the domain
    ensures r == Err(InconsistentParameters(LegacyLengthMessage))
        <==> AllSet(d, f, m) && f.value.Values? && |f.value.vals| != SampleCount(d.value)
    // only a closure over a uniform domain yields a value
    ensures r.Ok? <==> AllSet(d, f, m) && f.value.Closure? && d.value.Uniform?
  {
    if !AllSet(d, f, m) then Err(MissingParameters(LegacyMissingMessage))
    else if !Consistent(d.value, f.value) then Err(InconsistentParameters(LegacyLengthMessage))
    else
      var xs, ys := Positions(d.value), Samples(d.value, f.value);
      match m.value
      case Rectangle => Ok(d.value.step * Total(ys))
      case Trapezoid => Ok(Rule(ComputeMethod.Trapezoid, xs, ys))
  }

  // ------ The earlier kernels compute the reference

  /** Both ways of writing a trapezoid panel agree, so the earlier and the newer trapezoid folds agree. */
  lemma {:induction false} LegacyTrapezoidIsTrapezoid(c: real -> real, start: real, step: real, k: nat)
    ensures LegacyTrapezoidSum(c, start, step, k) == ClosureUniformTrapezoid(c, start, step, k)
  {
    if k > 1 {
      LegacyTrapezoidIsTrapezoid(c, start, step, k - 1);
      var y1, y2 := c(Node(start, step, k - 2)), c(Node(start, step, k - 1));
      assert step * (Min(y1, y2) + Abs(y1 - y2) / 2.0) == PairArea(y1, y2, step);
    }
  }

  /** The earlier rectangle rule adds all `n_step` samples, each weighted by `step`. */
  lemma LegacyRectangleIsScaledTotal(c: real -> real, start: real, step: real, n: nat)
    ensures ClosureUniformSum(c, start, step, 0, n) == step * Total(Samples(Uniform(start, step, n), Closure(c)))
  {
    var ys := Samples(Uniform(start, step, n), Closure(c));
    assert ClosureUniformSum(c, start, step, 0, n) == ValuesUniformSum(ys, step, 0, n) by {
      forall i | 0 <= i < |ys|
        ensures ys[i] == c(Node(start, step, i))
      {
        assert Positions(Uniform(start, step, n))[i] == Node(start, step, i);
      }
      ClosureUniformIsValuesUniform(c, start, step, ys, 0, n);
    }
    ValuesUniformSumIsScaledTotal(ys, step, 0, n);
    assert ys[0..n] == ys;
  }

  /** The earlier trapezoid fold is the trapezoid rule over the uniform positions and the closure's samples. */
  lemma LegacyTrapezoidMatchesRule(c: real -> real, start: real, step: real, n: nat)
    ensures var d := Uniform(start, step, n);
      LegacyTrapezoidSum(c, start, step, n) == Rule(ComputeMethod.Trapezoid, Positions(d), Samples(d, Closure(c)))
  {
    LegacyTrapezoidIsTrapezoid(c, start, step, n);
    ClosureUniformMatchesRule(c, start, step, n);
  }

  // ------ The earlier engine against the newer one

  /**
   * The earlier Rectangle adds every sample, so it is the newer RectangleLeft plus the last
   * panel's right edge, and the newer RectangleRight plus the first panel's left edge.
   */
  lemma LegacyRectangleIsLeftPlusLastSample(c: real -> real, start: real, step: real, n: nat)
    requires n >= 1
    ensures var d, f := Uniform(start, step, n), Closure(c);
      var legacy := LegacyEvaluate(Some(d), Some(f), Some(Rectangle));
      && legacy.Ok?
      && legacy.value == Engine.Evaluate(Some(d), Some(f), Some(ComputeMethod.RectangleLeft)).value
                         + step * c(Node(start, step, n - 1))
      && legacy.value == Engine.Evaluate(Some(d), Some(f), Some(ComputeMethod.RectangleRight)).value
                         + step * c(start)
  {
    var d, f := Uniform(start, step, n), Closure(c);
    var ys := Samples(d, f);
    assert ys[n - 1] == c(Node(start, step, n - 1)) && ys[0] == c(Node(start, step, 0));
    Engine.UniformRectanglesFactorStep(d, f);
    assert ys[..n] == ys;
    TotalSplitFirst(ys);
  }

  /** A non-empty sum is its first element plus the sum of the rest. */
  lemma {:induction false} TotalSplitFirst(s: seq<real>)
    requires |s| >= 1
    ensures Total(s) == s[0] + Total(s[1..])
  {
    if |s| > 1 {
      TotalSplitFirst(s[..|s| - 1]);
      assert s[..|s| - 1][1..] == s[1..][..|s[1..]| - 1];
    }
  }

  /**
   * On a closure over a uniform domain, the earlier and the newer specifications give the same
   * trapezoid value. Both apply the same rule, so this holds by definition; the fact that the two
   * engines' trapezoid folds agree is `LegacyTrapezoidIsTrapezoid`.
   */
  lemma LegacyTrapezoidAgreesWithEngine(c: real -> real, start: real, step: real, n: nat)
    ensures var d, f := Uniform(start, step, n), Closure(c);
      var legacy := LegacyEvaluate(Some(d), Some(f), Some(LegacyMethod.Trapezoid));
      legacy.Ok? && legacy.value == Engine.Evaluate(Some(d), Some(f), Some(ComputeMethod.Trapezoid)).value
  {
  }

  /**
   * The documented example of the earlier engine: 100 001 points from 0 with step 1e-5, the
   * closure `2x` and the trapezoid rule compute successfully, and over the reals give exactly 1.
   */
  lemma LegacyDocumentedExample()
    ensures var r := LegacyEvaluate(Some(Uniform(0.0, 0.00001, 100_001)), Some(Closure(x => 2.0 * x)), Some(LegacyMethod.Trapezoid));
      r.Ok? && r.value == 1.0
  {
    LegacyTrapezoidAgreesWithEngine(x => 2.0 * x, 0.0, 0.00001, 100_001);
    Engine.DocumentedExample();
  }
}
