/**
 * The compute engine: an object with three optional slots (domain, function, method), one setter
 * per slot, and `Compute`, which validates the slots, dispatches on (function kind x domain kind)
 * and then on the method, and on success clears the function slot only.
 *
 * `Evaluate` is the reference `Compute` is proved against: the same checks in the same order,
 * then the method's rule over the domain's positions and the function's samples.
 */
module Engine {
  import opened Prelude
  import opened Parameters
  import opened Kernels

  /** Why a computation failed. */
  datatype IntegraalError =
    | /** One or more parameters are missing. */
      MissingParameters(msg: string)
    | /** Specified parameters are conflicting or ambiguous. */
      InconsistentParameters(msg: string)

  const MissingMessage: string := "one or more parameter is missing"
  const LengthMessage: string := "provided function and domain value slices have different lengthes"

  /**
   * The slot contents on which `compute` panics instead of returning: every check passed and the
   * method is Monte Carlo (`todo!()`), or RectangleLeft over a uniform domain of 0 steps
   * (`n_step - 1` underflows).
   */
  predicate Aborts(d: Option<DomainDescriptor>, f: Option<FunctionDescriptor>, m: Option<ComputeMethod>)
  {
    && AllSet(d, f, m)
    && Consistent(d.value, f.value)
    && (m.value.MonteCarlo? || (m.value.RectangleLeft? && d.value.Uniform? && d.value.nStep == 0))
  }

  /** What `compute` returns for the given slots. */
  function Evaluate(d: Option<DomainDescriptor>, f: Option<FunctionDescriptor>, m: Option<ComputeMethod>)
    : (r: Result<real, IntegraalError>)
    requires !Aborts(d, f, m)
    // a missing slot is reported first, whatever else is wrong
    ensures !AllSet(d, f, m) ==> r == Err(MissingParameters(MissingMessage))
    // a length mismatch is reported exactly when all slots are set and the values do not fit the domain
    ensures r == Err(InconsistentParameters(LengthMessage))
        <==> AllSet(d, f, m) && f.value.Values? && |f.value.vals| != SampleCount(d.value)
    // a closure is never inconsistent with its domain
    ensures f.Some? && f.value.Closure? ==> !(r.Err? && r.error.InconsistentParameters?)
    // every other configuration yields a value
    ensures r.Ok? <==> AllSet(d, f, m) && Consistent(d.value, f.value)
  {
    if !AllSet(d, f, m) then Err(MissingParameters(MissingMessage))
    else if !Consistent(d.value, f.value) then Err(InconsistentParameters(LengthMessage))
    else Ok(Rule(m.value, Positions(d.value), Samples(d.value, f.value)))
  }

  /** Main integral computation structure. */
  class Integraal {
    /** Domain over which the function is integrated. */
    var domainSlot: Option<DomainDescriptor>
    /** Function to integrate. */
    var functionSlot: Option<FunctionDescriptor>
    /** Numerical integration method used for value approximation. */
    var methodSlot: Option<ComputeMethod>

    /** `Integraal::default()`: every slot is empty. */
    constructor ()
      ensures domainSlot == None && functionSlot == None && methodSlot == None
    {
      domainSlot, functionSlot, methodSlot := None, None, None;
    }

    /** Set the domain descriptor. */
    method SetDomain(d: DomainDescriptor)
      modifies this
      ensures domainSlot == Some(d)
      ensures functionSlot == old(functionSlot) && methodSlot == old(methodSlot)
    {
      domainSlot := Some(d);
    }

    /** Set the function descriptor. */
    method SetFunction(f: FunctionDescriptor)
      modifies this
      ensures functionSlot == Some(f)
      ensures domainSlot == old(domainSlot) && methodSlot == old(methodSlot)
    {
      functionSlot := Some(f);
    }

    /** Set the numerical integration method. */
    method SetMethod(m: ComputeMethod)
      modifies this
      ensures methodSlot == Some(m)
      ensures domainSlot == old(domainSlot) && functionSlot == old(functionSlot)
    {
      methodSlot := Some(m);
    }

    /**
     * Attempt to compute the integral. On success the function slot is cleared and the domain and
     * method are kept; on failure nothing changes.
     */
    method Compute() returns (res: Result<real, IntegraalError>)
      requires !Aborts(domainSlot, functionSlot, methodSlot)
      modifies this
      ensures res == Evaluate(old(domainSlot), old(functionSlot), old(methodSlot))
      ensures domainSlot == old(domainSlot) && methodSlot == old(methodSlot)
      ensures functionSlot == if res.Ok? then None else old(functionSlot)
    {
      if domainSlot.None? || functionSlot.None? || methodSlot.None? {
        return Err(MissingParameters(MissingMessage));
      }
      var d, f, m := domainSlot.value, functionSlot.value, methodSlot.value;
      var value: real;
      match (f, d) {
        case (Values(vals), Explicit(args)) =>
          if |args| != |vals| {
            return Err(InconsistentParameters(LengthMessage));
          }
          var nSample := |args|;
          match m {
            case RectangleLeft => value := ValuesExplicitLeft(args, vals, nSample);
            case RectangleRight => value := ValuesExplicitRight(args, vals, nSample);
            case Trapezoid => value := ValuesExplicitTrapezoid(args, vals, nSample);
          }
        case (Values(vals), Uniform(_, step, nStep)) =>
          if nStep != |vals| {
            return Err(InconsistentParameters(LengthMessage));
          }
          ValuesUniformMatchesRule(d.start, step, vals);
          match m {
            case RectangleLeft => value := ValuesUniformSum(vals, step, 0, nStep - 1);
            case RectangleRight => value := ValuesUniformSum(vals, step, 1, nStep);
            case Trapezoid => value := ValuesUniformTrapezoid(vals, step, nStep);
          }
        case (Closure(c), Explicit(args)) =>
          ClosureExplicitMatchesRule(c, args);
          match m {
            case RectangleLeft => value := ClosureExplicitLeft(c, args, |args|);
            case RectangleRight => value := ClosureExplicitRight(c, args, |args|);
            case Trapezoid => value := ClosureExplicitTrapezoid(c, args, |args|);
          }
        case (Closure(c), Uniform(start, step, nStep)) =>
          ClosureUniformMatchesRule(c, start, step, nStep);
          match m {
            case RectangleLeft => value := ClosureUniformSum(c, start, step, 0, nStep - 1);
            case RectangleRight => value := ClosureUniformSum(c, start, step, 1, nStep);
            case Trapezoid => value := ClosureUniformTrapezoid(c, start, step, nStep);
          }
      }
      functionSlot := None;
      return Ok(value);
    }
  }

  // ------ Properties of `compute`

  /** On every descriptor combination, Trapezoid is the mean of RectangleLeft and RectangleRight. */
  lemma TrapezoidIsMeanOfRectangleSums(d: DomainDescriptor, f: FunctionDescriptor)
    requires Consistent(d, f) && !(d.Uniform? && d.nStep == 0)
    ensures Evaluate(Some(d), Some(f), Some(Trapezoid)).value
         == (Evaluate(Some(d), Some(f), Some(RectangleLeft)).value
             + Evaluate(Some(d), Some(f), Some(RectangleRight)).value) / 2.0
  {
    var xs := Positions(d);
    TrapezoidIsMeanOfRectangles(xs, Samples(d, f), |xs|);
  }

  /**
   * On a uniform domain, RectangleLeft is `step` times the sum of every value but the last, and
   * RectangleRight `step` times the sum of every value but the first.
   */
  lemma UniformRectanglesFactorStep(d: DomainDescriptor, f: FunctionDescriptor)
    requires d.Uniform? && d.nStep >= 1 && Consistent(d, f)
    ensures var r := Evaluate(Some(d), Some(f), Some(RectangleLeft));
      r.Ok? && r.value == d.step * Total(Samples(d, f)[..d.nStep - 1])
    ensures var r := Evaluate(Some(d), Some(f), Some(RectangleRight));
      r.Ok? && r.value == d.step * Total(Samples(d, f)[1..])
  {
    var ys := Samples(d, f);
    UniformLeftRuleIsScaledTotal(d, ys);
    assert ys[..d.nStep - 1] == ys[..|ys| - 1];
    UniformRightRuleIsScaledTotal(d, ys);
  }

  /**
   * The four descriptor combinations agree: a closure over a uniform domain, its values over that
   * domain, the closure over the domain's positions given explicitly, and its values over them.
   */
  lemma DescriptorCombinationsAgree(c: real -> real, start: real, step: real, nStep: nat, m: ComputeMethod)
    requires !Aborts(Some(Uniform(start, step, nStep)), Some(Closure(c)), Some(m))
    ensures var uniform := Uniform(start, step, nStep);
      var xs := Positions(uniform);
      var ys := seq(nStep, i => c(Node(start, step, i)));
      var r := Evaluate(Some(uniform), Some(Closure(c)), Some(m));
      && r.Ok?
      && Evaluate(Some(uniform), Some(Values(ys)), Some(m)) == r
      && Evaluate(Some(Explicit(xs)), Some(Closure(c)), Some(m)) == r
      && Evaluate(Some(Explicit(xs)), Some(Values(ys)), Some(m)) == r
  {
    var uniform := Uniform(start, step, nStep);
    var xs := Positions(uniform);
    var ys := seq(nStep, i => c(Node(start, step, i)));
    var sampled := Samples(uniform, Closure(c));
    forall i | 0 <= i < nStep
      ensures sampled[i] == ys[i]
    {
      assert xs[i] == Node(start, step, i);
    }
    assert sampled == ys;
    assert Samples(Explicit(xs), Closure(c)) == ys;
  }

  /**
   * The documented example: a uniform domain of 100 001 points from 0 with step 1e-5, the closure
   * `2x` and the trapezoid rule compute successfully, and over the reals the result is exactly 1.
   */
  lemma DocumentedExample()
    ensures Evaluate(Some(Uniform(0.0, 0.00001, 100_001)), Some(Closure(x => 2.0 * x)), Some(Trapezoid)) == Ok(1.0)
  {
    var d := Uniform(0.0, 0.00001, 100_001);
    var f := Closure(x => 2.0 * x);
    var xs, ys := Positions(d), Samples(d, f);
    assert forall i :: 0 <= i < |xs| ==> ys[i] == 2.0 * xs[i] + 0.0;
    TrapezoidExactOnAffine(xs, ys, 2.0, 0.0, |xs|);
    assert xs[100_000] == 1.0;
  }

  /**
   * Many integrals over the same domain: after a successful computation the function slot is
   * empty, so computing again reports a missing parameter, and setting a new function computes
   * its integral over the kept domain with the kept method.
   */
  method ReuseDomainAndMethod(d: DomainDescriptor, c1: real -> real, c2: real -> real, m: ComputeMethod)
    returns (first: Result<real, IntegraalError>, again: Result<real, IntegraalError>, second: Result<real, IntegraalError>)
    requires !Aborts(Some(d), Some(Closure(c1)), Some(m))
    ensures first.Ok? && first == Evaluate(Some(d), Some(Closure(c1)), Some(m))
    ensures again == Err(MissingParameters(MissingMessage))
    ensures second.Ok? && second == Evaluate(Some(d), Some(Closure(c2)), Some(m))
  {
    var integral := new Integraal();
    integral.SetDomain(d);
    integral.SetFunction(Closure(c1));
    integral.SetMethod(m);
    first := integral.Compute();
    again := integral.Compute();
    integral.SetFunction(Closure(c2));
    second := integral.Compute();
  }
}
