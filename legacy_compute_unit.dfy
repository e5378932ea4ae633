/**
 * The earlier engine's by-value front-end: the engine is a value, each setter consumes it and
 * returns it with one slot filled, and `Compute` returns the result together with the engine's
 * next state (the function slot cleared on success, unchanged otherwise).
 */
module LegacyComputeUnit {
  import opened Prelude
  import opened Parameters
  import opened Kernels
  import opened Legacy

  /** The engine's three optional slots. */
  datatype Integraal = Integraal(
    domainSlot: Option<DomainDescriptor>,
    functionSlot: Option<FunctionDescriptor>,
    methodSlot: Option<LegacyMethod>)
  {
    /** Set the domain descriptor. */
    function WithDomain(d: DomainDescriptor): (next: Integraal)
      ensures next.domainSlot == Some(d)
      ensures next.functionSlot == functionSlot && next.methodSlot == methodSlot
    {
      this.(domainSlot := Some(d))
    }

    /** Set the function descriptor. */
    function WithFunction(f: FunctionDescriptor): (next: Integraal)
      ensures next.functionSlot == Some(f)
      ensures next.domainSlot == domainSlot && next.methodSlot == methodSlot
    {
      this.(functionSlot := Some(f))
    }

    /** Set the numerical integration method. */
    function WithMethod(m: LegacyMethod): (next: Integraal)
      ensures next.methodSlot == Some(m)
      ensures next.domainSlot == domainSlot && next.functionSlot == functionSlot
    {
      this.(methodSlot := Some(m))
    }

    /**
     * Attempt to compute the integral, returning the result and the engine's next state: on
     * success the function slot is cleared and the domain and method are kept; on failure the
     * engine is unchanged.
     */
    method Compute() returns (res: Result<real, IntegraalError>, next: Integraal)
      requires !LegacyAborts(domainSlot, functionSlot, methodSlot)
      ensures res == LegacyEvaluate(domainSlot, functionSlot, methodSlot)
      ensures next == if res.Ok? then this.(functionSlot := None) else this
    {
      if domainSlot.None? || functionSlot.None? || methodSlot.None? {
        return Err(MissingParameters(LegacyMissingMessage)), this;
      }
      var d, f, m := domainSlot.value, functionSlot.value, methodSlot.value;
      var value: real;
      match (f, d) {
        case (Values(vals), Explicit(args)) =>
          if |args| != |vals| {
            return Err(InconsistentParameters(LegacyLengthMessage)), this;
          }
          // `todo!()`, excluded by the precondition
          assert false;
        case (Values(vals), Uniform(_, _, nStep)) =>
          if nStep != |vals| {
            return Err(InconsistentParameters(LegacyLengthMessage)), this;
          }
          // `todo!()`, excluded by the precondition
          assert false;
        case (Closure(c), Uniform(start, step, nStep)) =>
          match m {
            case Rectangle =>
              value := ClosureUniformSum(c, start, step, 0, nStep);
              LegacyRectangleIsScaledTotal(c, start, step, nStep);
              assert LegacyEvaluate(domainSlot, functionSlot, methodSlot).value == value;
            case Trapezoid =>
              value := LegacyTrapezoidSum(c, start, step, nStep);
              LegacyTrapezoidMatchesRule(c, start, step, nStep);
              assert LegacyEvaluate(domainSlot, functionSlot, methodSlot).value == value;
          }
      }
      return Ok(value), this.(functionSlot := None);
    }
  }

  /** `Integraal::default()`: every slot is empty. */
  function Default(): (e: Integraal)
    ensures e.domainSlot.None? && e.functionSlot.None? && e.methodSlot.None?
  {
    Integraal(None, None, None)
  }

  /**
   * Building by value: setting the three slots of a default engine, in any order, gives the same
   * engine, and any slot left unset makes `compute` report a missing parameter.
   */
  lemma SetterOrderIsIrrelevant(d: DomainDescriptor, f: FunctionDescriptor, m: LegacyMethod)
    ensures var e := Default().WithDomain(d).WithFunction(f).WithMethod(m);
      && e == Default().WithMethod(m).WithFunction(f).WithDomain(d)
      && e == Default().WithFunction(f).WithDomain(d).WithMethod(m)
      && e == Integraal(Some(d), Some(f), Some(m))
    ensures var e := Default().WithDomain(d).WithMethod(m);
      LegacyEvaluate(e.domainSlot, e.functionSlot, e.methodSlot) == Err(MissingParameters(LegacyMissingMessage))
  {
  }

  /**
   * Many integrals over the same domain: a successful `compute` leaves an engine that reports a
   * missing function, and setting a closure again computes over the kept domain and method.
   */
  method ComputeTwice(start: real, step: real, nStep: nat, c1: real -> real, c2: real -> real, m: LegacyMethod)
    returns (first: Result<real, IntegraalError>, again: Result<real, IntegraalError>, second: Result<real, IntegraalError>)
    requires !m.MonteCarlo?
    ensures first == LegacyEvaluate(Some(Uniform(start, step, nStep)), Some(Closure(c1)), Some(m)) && first.Ok?
    ensures again == Err(MissingParameters(LegacyMissingMessage))
    ensures second == LegacyEvaluate(Some(Uniform(start, step, nStep)), Some(Closure(c2)), Some(m)) && second.Ok?
  {
    var e := Default().WithDomain(Uniform(start, step, nStep)).WithFunction(Closure(c1)).WithMethod(m);
    first, e := e.Compute();
    again, e := e.Compute();
    second, e := e.WithFunction(Closure(c2)).Compute();
  }
}
