/**
 * The integral parameters: how the integration domain is discretised, how the integrated
 * function is given, and which numerical method is used. Scalars are mathematical reals.
 */
module Parameters {
  import opened Prelude

  /** Discretisation of the integrated (one-dimensional) space. */
  datatype DomainDescriptor =
    | /** The positions themselves, assumed increasing (never checked). */
      Explicit(args: seq<real>)
    | /** `nStep` positions `start + step * i`, for `i` in `0 .. nStep`. */
      Uniform(start: real, step: real, nStep: nat)

  /** The integrated function: either something to evaluate, or its values at the domain's positions. */
  datatype FunctionDescriptor =
    | Closure(closure: real -> real)
    | Values(vals: seq<real>)

  /** The numerical integration methods the engine dispatches on. */
  datatype ComputeMethod =
    | RectangleLeft
    | RectangleRight
    | Trapezoid
    | MonteCarlo(nSample: nat)

  /** All three slots of an engine are filled. */
  predicate AllSet<M>(d: Option<DomainDescriptor>, f: Option<FunctionDescriptor>, m: Option<M>)
  {
    d.Some? && f.Some? && m.Some?
  }

  /** Number of samples the domain denotes. */
  function SampleCount(d: DomainDescriptor): nat
  {
    match d
    case Explicit(args) => |args|
    case Uniform(_, _, nStep) => nStep
  }

  /** Position of the `i`-th sample of a uniform domain. */
  function Node(start: real, step: real, i: int): real
  {
    start + step * (i as real)
  }

  /** The positions a domain denotes: the explicit slice itself, or `start + step * i` for each `i`. */
  function Positions(d: DomainDescriptor): (xs: seq<real>)
    ensures |xs| == SampleCount(d)
    ensures d.Explicit? ==> xs == d.args
    ensures d.Uniform? ==> forall i :: 0 <= i < |xs| ==> xs[i] == Node(d.start, d.step, i)
  {
    match d
    case Explicit(args) => args
    case Uniform(start, step, nStep) => seq(nStep, i => Node(start, step, i))
  }

  /** A uniform domain starts at `start`, and its consecutive positions are exactly `step` apart. */
  lemma UniformSpacing(d: DomainDescriptor, i: nat)
    requires d.Uniform? && 1 <= i < d.nStep
    ensures Positions(d)[0] == d.start
    ensures Positions(d)[i] - Positions(d)[i - 1] == d.step
  {
  }

  /** A `Values` descriptor must hold one value per sample of the domain; a closure fits any domain. */
  predicate Consistent(d: DomainDescriptor, f: FunctionDescriptor)
  {
    f.Values? ==> |f.vals| == SampleCount(d)
  }

  /** The function's values at the domain's positions. */
  function Samples(d: DomainDescriptor, f: FunctionDescriptor): (ys: seq<real>)
    requires Consistent(d, f)
    ensures |ys| == SampleCount(d)
    ensures f.Values? ==> ys == f.vals
    ensures f.Closure? ==> forall i :: 0 <= i < |ys| ==> ys[i] == f.closure(Positions(d)[i])
  {
    match f
    case Values(vals) => vals
    case Closure(c) =>
      var xs := Positions(d);
      seq(|xs|, i requires 0 <= i < |xs| => c(xs[i]))
  }
}
