/**
 * The earlier engine's `&mut` front-end: an object whose setters fill one slot each, and whose
 * `Compute` validates the slots, integrates a closure over a uniform domain, and on success
 * clears the function slot only.
 */
module LegacyStructure {
  import opened Prelude
  import opened Parameters
  import opened Kernels
  import opened Legacy

  /** Main integral computation structure of the earlier engine. */
  class Integraal {
    /** Domain over which the function is integrated. */
    var domainSlot: Option<DomainDescriptor>
    /** Function to integrate. */
    var functionSlot: Option<FunctionDescriptor>
    /** Numerical integration method used for value approximation. */
    var methodSlot: Option<LegacyMethod>

    /** `Integraal::default()`: every slot is empty. */
    constructor ()
      ensures domainSlot == None && functionSlot == None && methodSlot == None
    {
      domainSlot, functionSlot, methodSlot := None, None, None;
    }

    /** Set the domain descriptor. */
    method SetDomain(d: DomainDescriptor)
      modifies this
      ensures domainSlot == Some(d)
      ensures functionSlot == old(functionSlot) && methodSlot == old(methodSlot)
    {
      domainSlot := Some(d);
    }

    /** Set the function descriptor. */
    method SetFunction(f: FunctionDescriptor)
      modifies this
      ensures functionSlot == Some(f)
      ensures domainSlot == old(domainSlot) && methodSlot == old(methodSlot)
    {
      functionSlot := Some(f);
    }

    /** Set the numerical integration method. */
    method SetMethod(m: LegacyMethod)
      modifies this
      ensures methodSlot == Some(m)
      ensures domainSlot == old(domainSlot) && functionSlot == old(functionSlot)
    {
      methodSlot := Some(m);
    }

    /**
     * Attempt to compute the integral. On success the function slot is cleared and the domain and
     * method are kept; on failure nothing changes.
     */
    method Compute() returns (res: Result<real, IntegraalError>)
      requires !LegacyAborts(domainSlot, functionSlot, methodSlot)
      modifies this
      ensures res == LegacyEvaluate(old(domainSlot), old(functionSlot), old(methodSlot))
      ensures domainSlot == old(domainSlot) && methodSlot == old(methodSlot)
      ensures functionSlot == if res.Ok? then None else old(functionSlot)
    {
      if domainSlot.None? || functionSlot.None? || methodSlot.None? {
        return Err(MissingParameters(LegacyMissingMessage));
      }
      var d, f, m := domainSlot.value, functionSlot.value, methodSlot.value;
      var value: real;
      match (f, d) {
        case (Values(vals), Explicit(args)) =>
          if |args| != |vals| {
            return Err(InconsistentParameters(LegacyLengthMessage));
          }
          // `todo!()`, excluded by the precondition
          assert false;
        case (Values(vals), Uniform(_, _, nStep)) =>
          if nStep != |vals| {
            return Err(InconsistentParameters(LegacyLengthMessage));
          }
          // `todo!()`, excluded by the precondition
          assert false;
        case (Closure(c), Uniform(start, step, nStep)) =>
          match m {
            case Rectangle =>
              value := ClosureUniformSum(c, start, step, 0, nStep);
              LegacyRectangleIsScaledTotal(c, start, step, nStep);
              assert LegacyEvaluate(domainSlot, functionSlot, methodSlot).value == value;
            case Trapezoid =>
              value := LegacyTrapezoidSum(c, start, step, nStep);
              LegacyTrapezoidMatchesRule(c, start, step, nStep);
              assert LegacyEvaluate(domainSlot, functionSlot, methodSlot).value == value;
          }
      }
      functionSlot := None;
      return Ok(value);
    }
  }

  /**
   * The documented usage: a default engine, the three setters, then
   * `compute` succeeds on the documented example, and computing again without a new function
   * reports a missing parameter.
   */
  method DocumentedUsage() returns (first: Result<real, IntegraalError>, again: Result<real, IntegraalError>)
    ensures first.Ok? && first.value == 1.0
    ensures again == Err(MissingParameters(LegacyMissingMessage))
  {
    var integral := new Integraal();
    integral.SetDomain(Uniform(0.0, 0.00001, 100_001));
    integral.SetFunction(Closure(x => 2.0 * x));
    integral.SetMethod(LegacyMethod.Trapezoid);
    first := integral.Compute();
    LegacyDocumentedExample();
    again := integral.Compute();
  }
}
