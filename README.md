# integraal, modelled in Dafny

`integraal` is a small Rust library for numerical integration of a one-dimensional function.
An integral is described by three parameters held in an `Integraal` engine:

- a domain descriptor: explicit positions, or a uniform grid `start + step * i` for `i < n_step`;
- a function descriptor: a closure to evaluate, or its values at the domain's positions;
- a compute method: rectangle rules, trapezoid, or Monte Carlo.

Each parameter has a setter. `compute` first reports a missing parameter, then a length mismatch
between the values and the domain. It then dispatches on the (function kind x domain kind) pair
and on the method. Each of the resulting kernels is an index-range fold. On success it clears the
function slot only, so many integrals can be computed over the same domain with the same method.

The project models two versions of the engine:

- **The current engine** (`integraal/src/...`), in modules `Parameters`, `Kernels` and `Engine`.
  It has rules RectangleLeft, RectangleRight and Trapezoid, for all four descriptor combinations.
- **The earlier engine** (root `src/...`), in modules `Legacy`, `LegacyStructure` and
  `LegacyComputeUnit`:
  - it has a single Rectangle rule, which adds all `n_step` samples, and its own trapezoid formula;
  - it implements only a closure over a uniform domain;
  - it has two front-ends: `&mut` setters (`src/structure.rs`) and by-value builder setters
    (`src/compute_unit.rs`).

## How the model is built

- **Types.** The model maps the Rust types as follows:
  - `DomainDescriptor`, `FunctionDescriptor` and `ComputeMethod` of
    `integraal/src/parameters.rs` become the datatypes `Parameters.DomainDescriptor`
    (`Explicit` / `Uniform`), `Parameters.FunctionDescriptor` (`Closure` / `Values`) and
    `Parameters.ComputeMethod`.
  - `IntegraalError` of `integraal/src/structure/definitions.rs` becomes `Engine.IntegraalError`.
  - The earlier engine's `IntegraalError` and `ComputeMethod` (root `src/`) become
    `Legacy.IntegraalError` and `Legacy.LegacyMethod`.
  - `Option` and `Result` are the datatypes of module `Prelude`.
- **Scalars.** Every scalar is a Dafny `real`, and a closure is a `real -> real`. So sums are
  exact, and the documented examples come out at exactly 1.
- **Folds.** A Rust fold `(lo..hi).map(term).sum()` becomes a function recursive on `hi`. It adds
  the terms in the same order.
- **Reference for the current engine.** The slot checks, then `Kernels.Rule`: the method's formula
  over the domain's positions (`Parameters.Positions`) and the function's samples
  (`Parameters.Samples`). That is `Engine.Evaluate`.
- **The engine object.** It is a class whose methods update its three slots. The slots are named
  `domainSlot`, `functionSlot` and `methodSlot`, because `function` and `method` are Dafny keywords.
- **`Compute`.** It mirrors the source's dispatch branch by branch: the same length checks, the
  same kernels, the same `n_step - 1` bound. It is proved to return `Evaluate` of the old slots
  and to clear only the function slot on success. The twelve kernels are linked to `Rule` by
  lemmas.
- **Panics.** A configuration on which the source panics rather than returning is excluded by a
  precondition, `Engine.Aborts` or `Legacy.LegacyAborts`. Such a configuration has every slot set
  and consistent, and it then reaches one of these:
  - `todo!()`: Monte Carlo, or any combination of the earlier engine other than a closure over a
    uniform domain;
  - an unsigned underflow: `n_step - 1` with `n_step == 0`, for RectangleLeft on a uniform
    domain.

  A missing or inconsistent parameter is never excluded: those paths return errors, as in the
  source.
- **Where the code and the documentation differ, the model follows the code:**
  - `integraal/src/parameters.rs:40-48` lists a single `Rectangle` method, but
    `integraal/src/structure/implementations.rs` dispatches on `RectangleLeft` and
    `RectangleRight`. The model uses the latter.
  - The error messages are the ones `compute` builds: "one or more parameter is missing" in the
    current engine, "cannot compute integral - one or more parameter is missing" and "todo" in
    the earlier one. The earlier engine's tests expect other strings.

## Model

| member | source | states |
|---|---|---|
| Parameters.Positions | integraal/src/parameters.rs:11-22 | the domain denotes one position per sample: the explicit slice itself, or `start + step * i` for every `i < n_step` |
| Parameters.UniformSpacing | integraal/src/parameters.rs:15-21 | a uniform domain starts at `start` and its consecutive positions are exactly `step` apart |
| Parameters.Samples | integraal/src/parameters.rs:29-36 | the function's values at the domain's positions: the given values, or the closure evaluated at each position, one per sample |
| Kernels.ValuesExplicitLeft | integraal/src/structure/implementations.rs:59-64 | the Values x Explicit left fold `vals[idx - 1] * (args[idx] - args[idx - 1])` over `1..n`; its partners are `TrapezoidIsMeanOfRectangles` and `LeftRuleIgnoresLastSample` |
| Kernels.ValuesExplicitRight | integraal/src/structure/implementations.rs:65-70 | the Values x Explicit right fold `vals[idx] * (args[idx] - args[idx - 1])` over `1..n`; its partners are `TrapezoidIsMeanOfRectangles` and `RightRuleIgnoresFirstSample` |
| Kernels.ValuesExplicitTrapezoid | integraal/src/structure/implementations.rs:71-78 | the Values x Explicit trapezoid fold over `1..n`; its partners are `TrapezoidIsMeanOfRectangles` and `TrapezoidExactOnAffine` |
| Kernels.ValuesUniformSum | integraal/src/structure/implementations.rs:102-109 | the Values x Uniform rectangle fold `vals[id] * step` over `0..n-1` (left) or `1..n` (right); its partners are `ValuesUniformSumIsScaledTotal` and `ValuesUniformIsValuesExplicit` |
| Kernels.ValuesUniformTrapezoid | integraal/src/structure/implementations.rs:110-116 | the Values x Uniform trapezoid fold with panel width `step`; its partner is `ValuesUniformIsValuesExplicit` |
| Kernels.ClosureExplicitLeft | integraal/src/structure/implementations.rs:128-133 | the Closure x Explicit left fold `closure(args[idx - 1]) * (args[idx] - args[idx - 1])`; its partner is `ClosureExplicitIsValuesExplicit` |
| Kernels.ClosureExplicitRight | integraal/src/structure/implementations.rs:134-139 | the Closure x Explicit right fold `closure(args[idx]) * (args[idx] - args[idx - 1])`; its partner is `ClosureExplicitIsValuesExplicit` |
| Kernels.ClosureExplicitTrapezoid | integraal/src/structure/implementations.rs:140-147 | the Closure x Explicit trapezoid fold; its partner is `ClosureExplicitIsValuesExplicit` |
| Kernels.ClosureUniformSum | integraal/src/structure/implementations.rs:164-175 | the Closure x Uniform rectangle fold `closure(start + step * id) * step` over `0..n-1` (left) or `1..n` (right); it is also the earlier Rectangle over `0..n_step` (src/structure.rs:117-122); its partners are `ClosureUniformIsValuesUniform` and `Legacy.LegacyRectangleIsScaledTotal` |
| Kernels.ClosureUniformTrapezoid | integraal/src/structure/implementations.rs:176-184 | the Closure x Uniform trapezoid fold; its partners are `ClosureUniformIsValuesUniform` and `ClosureUniformMatchesRule` |
| Kernels.Rule | integraal/src/structure/implementations.rs:58-84 | the reference: the method's formula over explicit positions and values, with no case for Monte Carlo; every kernel is proved equal to it by the `...MatchesRule` lemmas |
| Engine.Aborts | integraal/src/structure/implementations.rs:79-82 | the configurations on which `compute` panics: all slots set and consistent, with Monte Carlo (`todo!()`, also lines 117-120, 148-151, 185-188), or RectangleLeft on a uniform domain of 0 steps (`n_step - 1` underflows, lines 104 and 164); `Compute` and `Evaluate` require that it does not hold |
| Legacy.LegacyTrapezoidSum | src/structure.rs:123-131 | the earlier trapezoid fold `step * (min(y1, y2) + abs(y1 - y2) / 2)` over `1..n_step`; its partners are `LegacyTrapezoidIsTrapezoid` and `LegacyTrapezoidMatchesRule` |
| Legacy.LegacyAborts | src/structure.rs:81-106 | the configurations on which the earlier `compute` panics: all slots set and consistent, with values (`todo!()` at lines 86 and 99), an explicit domain (line 105), or Monte Carlo (lines 133-135); both earlier `Compute`s require that it does not hold |
| Kernels.PairArea | integraal/src/structure/implementations.rs:71-78 | the source's panel formula `(min(y1, y2) + abs(y1 - y2) / 2) * h` is the trapezoid area `(y1 + y2) / 2 * h` |
| Kernels.RuleOfFewSamples | integraal/src/structure/implementations.rs:59-78 | with fewer than two samples the range `1..n` is empty and every rule gives 0 |
| Kernels.TrapezoidIsMeanOfRectangles | integraal/src/structure/implementations.rs:59-78 | over any positions and values, the trapezoid sum is the mean of the left and right rectangle sums |
| Kernels.LeftRuleIgnoresLastSample | integraal/src/structure/implementations.rs:59-64 | the left rule never reads the last value: values that agree on all others give the same sum |
| Kernels.RightRuleIgnoresFirstSample | integraal/src/structure/implementations.rs:65-70 | the right rule never reads the first value: values that agree on all others give the same sum |
| Kernels.TrapezoidExactOnAffine | integraal/src/structure/implementations.rs:71-78 | on the values of an affine function `a * x + b` the trapezoid sum is the exact integral from the first to the last position |
| Kernels.ClosureExplicitIsValuesExplicit | integraal/src/structure/implementations.rs:127-147 | evaluating the closure inside the Closure x Explicit folds equals the Values x Explicit folds over its values (all three methods) |
| Kernels.ClosureUniformIsValuesUniform | integraal/src/structure/implementations.rs:163-184 | evaluating the closure at `start + step * id` inside the Closure x Uniform folds equals the Values x Uniform folds over those values |
| Kernels.ValuesUniformIsValuesExplicit | integraal/src/structure/implementations.rs:101-116 | the Values x Uniform folds with constant width `step` equal the explicit folds over the uniform positions |
| Kernels.ValuesUniformSumIsScaledTotal | integraal/src/structure/implementations.rs:102-109 | the fold `(lo..hi).map(vals[id] * step)` is `step` times the sum of `vals[lo..hi]` |
| Kernels.UniformLeftRuleIsScaledTotal | integraal/src/structure/implementations.rs:102-105 | on uniform positions, the left rule is `step` times the sum of every value but the last |
| Kernels.UniformRightRuleIsScaledTotal | integraal/src/structure/implementations.rs:106-109 | on uniform positions, the right rule is `step` times the sum of every value but the first |
| Kernels.ValuesUniformMatchesRule | integraal/src/structure/implementations.rs:100-116 | the three Values x Uniform kernels, with the source's ranges `0..n-1`, `1..n` and `1..n`, compute the reference rule |
| Kernels.ClosureExplicitMatchesRule | integraal/src/structure/implementations.rs:127-147 | the three Closure x Explicit kernels compute the reference rule over the closure's samples |
| Kernels.ClosureUniformMatchesRule | integraal/src/structure/implementations.rs:162-184 | the three Closure x Uniform kernels compute the reference rule over the uniform positions and the closure's samples |
| Engine.Evaluate | integraal/src/structure/implementations.rs:42-98 | a missing slot gives MissingParameters before anything else; InconsistentParameters exactly when values and domain differ in length; a closure is never inconsistent; a value exactly when all slots are set and consistent |
| Engine.Integraal.constructor | integraal/src/structure/definitions.rs:62-70 | the default engine has all three slots empty |
| Engine.Integraal.SetDomain | integraal/src/structure/implementations.rs:16-19 | sets the domain slot and changes neither other slot |
| Engine.Integraal.SetFunction | integraal/src/structure/implementations.rs:22-25 | sets the function slot and changes neither other slot |
| Engine.Integraal.SetMethod | integraal/src/structure/implementations.rs:28-31 | sets the method slot and changes neither other slot |
| Engine.Integraal.Compute | integraal/src/structure/implementations.rs:42-196 | returns `Evaluate` of the slots; on success clears the function slot and keeps domain and method; on any error changes nothing |
| Engine.TrapezoidIsMeanOfRectangleSums | integraal/src/structure/implementations.rs:48-191 | for every descriptor combination, Trapezoid computes the mean of RectangleLeft and RectangleRight |
| Engine.UniformRectanglesFactorStep | integraal/src/structure/implementations.rs:100-109 | on a uniform domain RectangleLeft is `step` times the sum of all samples but the last, RectangleRight all but the first |
| Engine.DescriptorCombinationsAgree | integraal/src/structure/implementations.rs:48-191 | a closure over a uniform domain, its values, the closure over the same positions given explicitly, and those values all compute successfully and give the same result |
| Engine.DocumentedExample | integraal/src/structure/definitions.rs:38-61 | the documented configuration (100 001 points from 0, step 1e-5, closure `2x`, Trapezoid) computes successfully, and over the reals the result is exactly 1 |
| Engine.ReuseDomainAndMethod | integraal/src/structure/definitions.rs:18-23 | after a successful compute the function slot is empty, computing again reports a missing parameter, and a new function is integrated over the kept domain with the kept method |
| Legacy.LegacyEvaluate | src/structure.rs:75-143 | a missing slot is reported first; "todo" InconsistentParameters exactly on a length mismatch; a value exactly for a closure over a uniform domain |
| Legacy.LegacyTrapezoidIsTrapezoid | src/structure.rs:123-131 | the earlier panel formula `step * (min + abs / 2)` sums to the same as the current engine's trapezoid fold |
| Legacy.LegacyRectangleIsScaledTotal | src/structure.rs:117-122 | the earlier Rectangle adds all `n_step` samples, each times `step` |
| Legacy.LegacyTrapezoidMatchesRule | src/structure.rs:123-131 | the earlier trapezoid fold is the trapezoid rule over the uniform positions and the closure's samples |
| Legacy.LegacyRectangleIsLeftPlusLastSample | src/structure.rs:117-122 | the earlier Rectangle is the current RectangleLeft plus `step` times the last sample, and the current RectangleRight plus `step` times the first |
| Legacy.LegacyTrapezoidAgreesWithEngine | src/structure.rs:123-131 | the earlier and the current engines give the same trapezoid value for a closure over a uniform domain |
| Legacy.LegacyDocumentedExample | src/structure/definitions.rs:37-58 | the earlier documented configuration computes successfully, with result exactly 1 over the reals |
| LegacyStructure.Integraal.constructor | src/structure.rs:38-43 | the default engine has all three slots empty |
| LegacyStructure.Integraal.SetDomain | src/structure.rs:47-50 | sets the domain slot and changes neither other slot |
| LegacyStructure.Integraal.SetFunction | src/structure.rs:53-56 | sets the function slot and changes neither other slot |
| LegacyStructure.Integraal.SetMethod | src/structure.rs:59-62 | sets the method slot and changes neither other slot |
| LegacyStructure.Integraal.Compute | src/structure.rs:75-143 | returns `LegacyEvaluate` of the slots; on success clears the function slot and keeps domain and method; on any error changes nothing |
| LegacyStructure.DocumentedUsage | src/structure/definitions.rs:37-58 | the documented usage through the setters computes 1, and computing again without a new function reports a missing parameter |
| LegacyComputeUnit.Integraal.WithDomain | src/compute_unit.rs:20-23 | returns the engine with the domain slot set and the other two unchanged |
| LegacyComputeUnit.Integraal.WithFunction | src/compute_unit.rs:25-28 | returns the engine with the function slot set and the other two unchanged |
| LegacyComputeUnit.Integraal.WithMethod | src/compute_unit.rs:30-33 | returns the engine with the method slot set and the other two unchanged |
| LegacyComputeUnit.Integraal.Compute | src/compute_unit.rs:35-102 | returns `LegacyEvaluate` of the slots and the next engine: function slot cleared on success, unchanged on error |
| LegacyComputeUnit.Default | src/compute_unit.rs:12-17 | the default engine has all three slots empty |
| LegacyComputeUnit.SetterOrderIsIrrelevant | src/compute_unit.rs:20-40 | the three by-value setters commute on a default engine, and an engine without a function reports a missing parameter |
| LegacyComputeUnit.ComputeTwice | src/compute_unit.rs:35-102 | a computed engine reports a missing function, and setting a new closure computes over the kept domain and method |

## Left out

- Floating point: scalars are exact reals. The model does not capture rounding, so `f64` results
  only approximate the values proved here. The generic scalar traits (`Scalar`, `ImageScalar`,
  `IntegratedScalar`, `from_usize`, `from_f32`) are left out with it.
- Monte Carlo: every engine reaches `todo!()` on it, so it is excluded by precondition.
- Engine.Integraal.Compute: it requires that RectangleLeft is not run on a uniform domain of 0
  steps. There `n_step - 1` underflows, which panics in a debug build and wraps in a release
  build.
- Legacy.LegacyEvaluate: it requires that the earlier engine reach none of its `todo!()`
  branches: values, an explicit domain, or Monte Carlo once the checks pass.
- Setter chaining: `&mut` setters return the engine for chaining; in the model they are
  statements on the object.
- Lifetimes and borrowing of the explicit slice are left out; the slice is a `seq<real>`.
- The other methods the documentation mentions (Simpson, Boole, Romberg, an error estimate) are
  not part of the core and have no implementation in it.
- The earlier engine's own descriptors are not modelled. Its `src/parameters.rs:3-8` declares the
  domain as a builder struct with optional boundaries, step and step count, and it has no
  `Explicit` or `Uniform` variants. Yet `src/compute_unit.rs:42-74` and `src/structure.rs:81-114`
  match on exactly those variants, so the earlier snapshot does not type-check as shown. The
  model therefore rebuilds the earlier engine on the newer descriptor enums (`Parameters`), and
  the builder's setters (`boundaries`, `step`, `n_step`) are not modelled. `src/lib.rs:10-11`
  declares only `compute_unit` and `parameters`; the model still includes `src/structure.rs`
  (as `LegacyStructure`), since it is the `&mut` form of the same engine that
  `src/structure/definitions.rs` documents.
- Examples, benchmarks and the crate's module wiring are left out.
