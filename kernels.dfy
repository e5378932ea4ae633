/**
 * The quadrature kernels of `compute`: one fold over an index range per (function kind x domain
 * kind x method), each written as the source writes it, as `(lo..hi).map(term).sum()`. A fold is
 * modelled by recursion on the upper end of its range, which adds the terms in the same order.
 *
 * The reference they are all proved against is `Rule`: the method's formula over explicit
 * positions and explicit values (the Values x Explicit kernels).
 */
module Kernels {
  import opened Parameters

  function Min(a: real, b: real): real
  {
    if a <= b then a else b
  }

  function Abs(a: real): real
  {
    if a < 0.0 then -a else a
  }

  /** One trapezoid panel of width `h`, written as the source does: `(min(y1, y2) + |y1 - y2| / 2) * h`. */
  function PairArea(y1: real, y2: real, h: real): (area: real)
    ensures area == (y1 + y2) / 2.0 * h
  {
    (Min(y1, y2) + Abs(y1 - y2) / 2.0) * h
  }

  /** Sum of a sequence. */
  function Total(s: seq<real>): real
  {
    if |s| == 0 then 0.0 else Total(s[..|s| - 1]) + s[|s| - 1]
  }

  // ------ Values x Explicit: `(1..k)`, the width of panel `idx` is `args[idx] - args[idx - 1]`

  /** `(1..k).map(|idx| vals[idx - 1] * (args[idx] - args[idx - 1])).sum()` */
  function ValuesExplicitLeft(args: seq<real>, vals: seq<real>, k: nat): real
    requires |vals| == |args| && k <= |args|
  {
    if k <= 1 then 0.0
    else ValuesExplicitLeft(args, vals, k - 1) + vals[k - 2] * (args[k - 1] - args[k - 2])
  }

  /** `(1..k).map(|idx| vals[idx] * (args[idx] - args[idx - 1])).sum()` */
  function ValuesExplicitRight(args: seq<real>, vals: seq<real>, k: nat): real
    requires |vals| == |args| && k <= |args|
  {
    if k <= 1 then 0.0
    else ValuesExplicitRight(args, vals, k - 1) + vals[k - 1] * (args[k - 1] - args[k - 2])
  }

  /** `(1..k).map(|idx| PairArea(vals[idx - 1], vals[idx], args[idx] - args[idx - 1])).sum()` */
  function ValuesExplicitTrapezoid(args: seq<real>, vals: seq<real>, k: nat): real
    requires |vals| == |args| && k <= |args|
  {
    if k <= 1 then 0.0
    else ValuesExplicitTrapezoid(args, vals, k - 1) + PairArea(vals[k - 2], vals[k - 1], args[k - 1] - args[k - 2])
  }

  // ------ Values x Uniform: the width of every panel is `step`

  /** `(lo..hi).map(|id| vals[id] * step).sum()`: `0..n-1` for the left rule, `1..n` for the right one. */
  function ValuesUniformSum(vals: seq<real>, step: real, lo: nat, hi: nat): real
    requires hi <= |vals|
  {
    if hi <= lo then 0.0
    else ValuesUniformSum(vals, step, lo, hi - 1) + vals[hi - 1] * step
  }

  /** `(1..k).map(|id| PairArea(vals[id - 1], vals[id], step)).sum()` */
  function ValuesUniformTrapezoid(vals: seq<real>, step: real, k: nat): real
    requires k <= |vals|
  {
    if k <= 1 then 0.0
    else ValuesUniformTrapezoid(vals, step, k - 1) + PairArea(vals[k - 2], vals[k - 1], step)
  }

  // ------ Closure x Explicit: the closure is evaluated at the positions themselves

  /** `(1..k).map(|idx| closure(args[idx - 1]) * (args[idx] - args[idx - 1])).sum()` */
  function ClosureExplicitLeft(c: real -> real, args: seq<real>, k: nat): real
    requires k <= |args|
  {
    if k <= 1 then 0.0
    else ClosureExplicitLeft(c, args, k - 1) + c(args[k - 2]) * (args[k - 1] - args[k - 2])
  }

  /** `(1..k).map(|idx| closure(args[idx]) * (args[idx] - args[idx - 1])).sum()` */
  function ClosureExplicitRight(c: real -> real, args: seq<real>, k: nat): real
    requires k <= |args|
  {
    if k <= 1 then 0.0
    else ClosureExplicitRight(c, args, k - 1) + c(args[k - 1]) * (args[k - 1] - args[k - 2])
  }

  /** `(1..k).map(|idx| PairArea(closure(args[idx - 1]), closure(args[idx]), args[idx] - args[idx - 1])).sum()` */
  function ClosureExplicitTrapezoid(c: real -> real, args: seq<real>, k: nat): real
    requires k <= |args|
  {
    if k <= 1 then 0.0
    else ClosureExplicitTrapezoid(c, args, k - 1) + PairArea(c(args[k - 2]), c(args[k - 1]), args[k - 1] - args[k - 2])
  }

  // ------ Closure x Uniform: the closure is evaluated at `start + step * id`

  /** `(lo..hi).map(|id| closure(start + step * id) * step).sum()` */
  function ClosureUniformSum(c: real -> real, start: real, step: real, lo: nat, hi: nat): real
  {
    if hi <= lo then 0.0
    else ClosureUniformSum(c, start, step, lo, hi - 1) + c(Node(start, step, hi - 1)) * step
  }

  /** `(1..k).map(|id| PairArea(closure(start + step * (id - 1)), closure(start + step * id), step)).sum()` */
  function ClosureUniformTrapezoid(c: real -> real, start: real, step: real, k: nat): real
  {
    if k <= 1 then 0.0
    else ClosureUniformTrapezoid(c, start, step, k - 1) + PairArea(c(Node(start, step, k - 2)), c(Node(start, step, k - 1)), step)
  }

  // ------ The reference rule

  /** The method's formula over positions `xs` and values `ys`; Monte Carlo has none. */
  function Rule(m: ComputeMethod, xs: seq<real>, ys: seq<real>): real
    requires !m.MonteCarlo? && |ys| == |xs|
  {
    match m
    case RectangleLeft => ValuesExplicitLeft(xs, ys, |xs|)
    case RectangleRight => ValuesExplicitRight(xs, ys, |xs|)
    case Trapezoid => ValuesExplicitTrapezoid(xs, ys, |xs|)
  }

  // ------ Properties of the explicit rules

  /** Fewer than two samples span no panel: every rule gives 0. */
  lemma {:induction false} RuleOfFewSamples(m: ComputeMethod, xs: seq<real>, ys: seq<real>)
    requires !m.MonteCarlo? && |ys| == |xs| && |xs| < 2
    ensures Rule(m, xs, ys) == 0.0
  {
  }

  /** Each trapezoid panel is the mean of its left and right rectangles, so the sums are too. */
  lemma {:induction false} TrapezoidIsMeanOfRectangles(args: seq<real>, vals: seq<real>, k: nat)
    requires |vals| == |args| && k <= |args|
    ensures ValuesExplicitTrapezoid(args, vals, k)
         == (ValuesExplicitLeft(args, vals, k) + ValuesExplicitRight(args, vals, k)) / 2.0
  {
    if k > 1 {
      TrapezoidIsMeanOfRectangles(args, vals, k - 1);
    }
  }

  /** The left rule reads `vals[i]` only for `i < k - 1`: the last sample is never a left edge. */
  lemma {:induction false} LeftRuleIgnoresLastSample(args: seq<real>, vals: seq<real>, vals': seq<real>, k: nat)
    requires |vals| == |vals'| == |args| && k <= |args|
    requires forall i :: 0 <= i < k - 1 ==> vals[i] == vals'[i]
    ensures ValuesExplicitLeft(args, vals, k) == ValuesExplicitLeft(args, vals', k)
  {
    if k > 1 {
      LeftRuleIgnoresLastSample(args, vals, vals', k - 1);
    }
  }

  /** The right rule reads `vals[i]` only for `i >= 1`: the first sample is never a right edge. */
  lemma {:induction false} RightRuleIgnoresFirstSample(args: seq<real>, vals: seq<real>, vals': seq<real>, k: nat)
    requires |vals| == |vals'| == |args| && k <= |args|
    requires forall i :: 1 <= i < k ==> vals[i] == vals'[i]
    ensures ValuesExplicitRight(args, vals, k) == ValuesExplicitRight(args, vals', k)
  {
    if k > 1 {
      RightRuleIgnoresFirstSample(args, vals, vals', k - 1);
    }
  }

  /** The exact integral of `a * x + b` from `x1` to `x2`. */
  function AffineIntegral(a: real, b: real, x1: real, x2: real): real
  {
    a / 2.0 * (x2 * x2 - x1 * x1) + b * (x2 - x1)
  }

  /** The trapezoid rule is exact on an affine function `a * x + b`, whatever the positions. */
  lemma {:induction false} TrapezoidExactOnAffine(xs: seq<real>, ys: seq<real>, a: real, b: real, k: nat)
    requires |ys| == |xs| && 1 <= k <= |xs|
    requires forall i :: 0 <= i < |xs| ==> ys[i] == a * xs[i] + b
    ensures ValuesExplicitTrapezoid(xs, ys, k) == AffineIntegral(a, b, xs[0], xs[k - 1])
  {
    if k > 1 {
      TrapezoidExactOnAffine(xs, ys, a, b, k - 1);
      var x1, x2 := xs[k - 2], xs[k - 1];
      var y1, y2 := ys[k - 2], ys[k - 1];
      assert y1 == a * x1 + b && y2 == a * x2 + b;
      var panel := PairArea(y1, y2, x2 - x1);
      assert ValuesExplicitTrapezoid(xs, ys, k) == ValuesExplicitTrapezoid(xs, ys, k - 1) + panel;
      AffinePanel(a, b, x1, x2);
      assert panel == AffineIntegral(a, b, x1, x2);
      AffineIntegralAdditive(a, b, xs[0], x1, x2);
    }
  }

  /** One panel of an affine function: its area is the exact integral over the panel. */
  lemma AffinePanel(a: real, b: real, x1: real, x2: real)
    ensures PairArea(a * x1 + b, a * x2 + b, x2 - x1) == AffineIntegral(a, b, x1, x2)
  {
  }

  /** Exact integrals over adjacent intervals add up. */
  lemma AffineIntegralAdditive(a: real, b: real, x0: real, x1: real, x2: real)
    ensures AffineIntegral(a, b, x0, x1) + AffineIntegral(a, b, x1, x2) == AffineIntegral(a, b, x0, x2)
  {
  }

  // ------ Closure kernels sample the closure; uniform kernels are explicit ones over uniform positions

  /** On explicit positions, evaluating the closure inside the fold equals folding over its values. */
  lemma {:induction false} ClosureExplicitIsValuesExplicit(c: real -> real, args: seq<real>, vals: seq<real>, k: nat)
    requires |vals| == |args| && k <= |args|
    requires forall i :: 0 <= i < |args| ==> vals[i] == c(args[i])
    ensures ClosureExplicitLeft(c, args, k) == ValuesExplicitLeft(args, vals, k)
    ensures ClosureExplicitRight(c, args, k) == ValuesExplicitRight(args, vals, k)
    ensures ClosureExplicitTrapezoid(c, args, k) == ValuesExplicitTrapezoid(args, vals, k)
  {
    if k > 1 {
      ClosureExplicitIsValuesExplicit(c, args, vals, k - 1);
    }
  }

  /** On a uniform domain, evaluating the closure at `start + step * id` equals folding over its values. */
  lemma {:induction false} ClosureUniformIsValuesUniform(c: real -> real, start: real, step: real, vals: seq<real>, lo: nat, k: nat)
    requires k <= |vals|
    requires forall i :: 0 <= i < |vals| ==> vals[i] == c(Node(start, step, i))
    ensures ClosureUniformSum(c, start, step, lo, k) == ValuesUniformSum(vals, step, lo, k)
    ensures ClosureUniformTrapezoid(c, start, step, k) == ValuesUniformTrapezoid(vals, step, k)
  {
    if k > 0 {
      ClosureUniformIsValuesUniform(c, start, step, vals, lo, k - 1);
    }
  }

  /** The uniform kernels are the explicit ones over the positions `start + step * i`. */
  lemma {:induction false} ValuesUniformIsValuesExplicit(start: real, step: real, vals: seq<real>, k: nat)
    requires k <= |vals|
    ensures 1 <= k ==> ValuesUniformSum(vals, step, 0, k - 1)
                       == ValuesExplicitLeft(Positions(Uniform(start, step, |vals|)), vals, k)
    ensures ValuesUniformSum(vals, step, 1, k) == ValuesExplicitRight(Positions(Uniform(start, step, |vals|)), vals, k)
    ensures ValuesUniformTrapezoid(vals, step, k) == ValuesExplicitTrapezoid(Positions(Uniform(start, step, |vals|)), vals, k)
  {
    var xs := Positions(Uniform(start, step, |vals|));
    if k > 1 {
      ValuesUniformIsValuesExplicit(start, step, vals, k - 1);
      UniformSpacing(Uniform(start, step, |vals|), k - 1);
    }
  }

  /** A uniform fold of `vals[id] * step` is `step` times the sum of the values it reads. */
  lemma {:induction false} ValuesUniformSumIsScaledTotal(vals: seq<real>, step: real, lo: nat, hi: nat)
    requires lo <= hi <= |vals|
    ensures ValuesUniformSum(vals, step, lo, hi) == step * Total(vals[lo..hi])
  {
    if hi > lo {
      ValuesUniformSumIsScaledTotal(vals, step, lo, hi - 1);
      assert vals[lo..hi][..hi - lo - 1] == vals[lo..hi - 1];
    }
  }

  /** Over uniform positions the left rule is `step` times the sum of every value but the last. */
  lemma UniformLeftRuleIsScaledTotal(d: DomainDescriptor, ys: seq<real>)
    requires d.Uniform? && |ys| == d.nStep >= 1
    ensures Rule(RectangleLeft, Positions(d), ys) == d.step * Total(ys[..|ys| - 1])
  {
    var n := |ys|;
    assert Rule(RectangleLeft, Positions(d), ys) == ValuesUniformSum(ys, d.step, 0, n - 1) by {
      assert d == Uniform(d.start, d.step, n);
      ValuesUniformIsValuesExplicit(d.start, d.step, ys, n);
    }
    ValuesUniformSumIsScaledTotal(ys, d.step, 0, n - 1);
    assert ys[0..n - 1] == ys[..n - 1];
  }

  /** Over uniform positions the right rule is `step` times the sum of every value but the first. */
  lemma UniformRightRuleIsScaledTotal(d: DomainDescriptor, ys: seq<real>)
    requires d.Uniform? && |ys| == d.nStep >= 1
    ensures Rule(RectangleRight, Positions(d), ys) == d.step * Total(ys[1..])
  {
    var n := |ys|;
    assert Rule(RectangleRight, Positions(d), ys) == ValuesUniformSum(ys, d.step, 1, n) by {
      assert d == Uniform(d.start, d.step, n);
      ValuesUniformIsValuesExplicit(d.start, d.step, ys, n);
    }
    ValuesUniformSumIsScaledTotal(ys, d.step, 1, n);
    assert ys[1..n] == ys[1..];
  }


  // ------ Each descriptor combination computes the reference rule

  /** Values x Uniform: the three kernels equal the rule over the uniform positions. */
  lemma ValuesUniformMatchesRule(start: real, step: real, vals: seq<real>)
    ensures var xs := Positions(Uniform(start, step, |vals|));
      && (|vals| >= 1 ==> ValuesUniformSum(vals, step, 0, |vals| - 1) == Rule(RectangleLeft, xs, vals))
      && ValuesUniformSum(vals, step, 1, |vals|) == Rule(RectangleRight, xs, vals)
      && ValuesUniformTrapezoid(vals, step, |vals|) == Rule(Trapezoid, xs, vals)
  {
    ValuesUniformIsValuesExplicit(start, step, vals, |vals|);
  }

  /** Closure x Explicit: the three kernels equal the rule over the closure's samples. */
  lemma ClosureExplicitMatchesRule(c: real -> real, args: seq<real>)
    ensures var ys := Samples(Explicit(args), Closure(c));
      && ClosureExplicitLeft(c, args, |args|) == Rule(RectangleLeft, args, ys)
      && ClosureExplicitRight(c, args, |args|) == Rule(RectangleRight, args, ys)
      && ClosureExplicitTrapezoid(c, args, |args|) == Rule(Trapezoid, args, ys)
  {
    ClosureExplicitIsValuesExplicit(c, args, Samples(Explicit(args), Closure(c)), |args|);
  }

  /** Closure x Uniform: the three kernels equal the rule over the uniform positions and the closure's samples. */
  lemma ClosureUniformMatchesRule(c: real -> real, start: real, step: real, n: nat)
    ensures var d := Uniform(start, step, n);
      var xs, ys := Positions(d), Samples(d, Closure(c));
      && (n >= 1 ==> ClosureUniformSum(c, start, step, 0, n - 1) == Rule(RectangleLeft, xs, ys))
      && ClosureUniformSum(c, start, step, 1, n) == Rule(RectangleRight, xs, ys)
      && ClosureUniformTrapezoid(c, start, step, n) == Rule(Trapezoid, xs, ys)
  {
    var d := Uniform(start, step, n);
    var ys := Samples(d, Closure(c));
    ClosureUniformIsValuesUniform(c, start, step, ys, 0, n);
    if n >= 1 {
      ClosureUniformIsValuesUniform(c, start, step, ys, 0, n - 1);
    }
    ClosureUniformIsValuesUniform(c, start, step, ys, 1, n);
    ValuesUniformMatchesRule(start, step, ys);
  }
}
