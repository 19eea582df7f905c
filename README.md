# beltmatic-solver in Dafny

beltmatic-solver finds arithmetic expressions that build a target number
from a fixed set of base numbers. This is the way numbers are made in the
game Beltmatic. A value is an unsigned 32-bit integer (`u32`). One step
takes a value found earlier as the left operand and a base value as the
right operand. It applies `+`, `*`, `-` or `^`, each checked for overflow
and underflow. Every expression therefore is a left-deep chain such as
`((3 + 5) * 5)`.

The library `src/lib.rs` has two solvers:

- **`FastSolver`** keeps a discovery list (`inputs`) and a cache mapping
  each value to the first operation that produced it. `iterate_until`
  sweeps every discovered value against every base value and stops the
  moment any step produces the target. `format_solution` rebuilds one
  expression by following the cached operations back to a base value.
- **`FullSolver`** searches level by level. Level `k` is the number of
  operations in an expression (`iterations`, the complexity). For every
  value it keeps all operations that reach it at its lowest level.
  `format_solution` expands these into every minimal expression, as a
  cartesian product of the operands' renderings.

In both solvers a sweep fixes its number of left operands when it starts,
because Rust evaluates the range `0..self.inputs.len()` once. Values found
during a sweep are left operands only in the next sweep. The model keeps
this.

Modules:

- `values.dfy` (`Values`): `u32` values and checked arithmetic.
- `operations.dfy` (`Operations`): `Operation` and the four candidates of
  one step.
- `expressions.dfy` (`Expressions`): expression trees, their checked
  evaluation, their size and their printed form. These give the solvers'
  strings an independent meaning.
- `fast_solver.dfy` (`FastSearch`): the fast solver.
- `full_solver.dfy` (`FullSearch`): the full solver.

Each solver is a `class` whose methods update `inputs`, `cache` (and
`iterations`) in place. Every loop is proved equal to a pure function of
the old state (`Pass`, `Run`, `FullPass`, `Climb`). The invariants and
results are proved as lemmas about those functions.

Main results:

- **Fast solver.**
  - The search halts exactly when some pair (discovered value, base
    value) produces the target (`PassHalts`).
  - The returned string prints a chain over the base values that
    evaluates to the target (`FastFormatDerives`, `FastSolver.Solve`).
- **Full solver.**
  - Between sweeps, a value's cached complexity is the least size of any
    chain reaching it (`Minimal`, `Witness`).
  - The strings `solve` returns are exactly the printed forms of all
    minimal chains reaching the target (`FullFormatExact`,
    `FullSolver.Solve`).

## Model

| member | source | states |
|---|---|---|
| Values.CheckedAdd | src/lib.rs:56 | `checked_add` succeeds exactly when `a + b` fits in `u32`, and then gives the sum |
| Values.CheckedMul | src/lib.rs:57 | `checked_mul` succeeds exactly when `a * b` fits in `u32`, and then gives the product |
| Values.CheckedSub | src/lib.rs:58 | `checked_sub` succeeds exactly when `b <= a`, and then gives `r` with `r + b == a` |
| Values.CheckedPow | src/lib.rs:59 | `checked_pow` succeeds exactly when `a` to the power `b` fits in `u32`, and then gives that power |
| Operations.Apply | src/lib.rs:55-60 | each operator's checked application succeeds exactly when its `u32` range check passes |
| Operations.Operation.Symbol | src/lib.rs:16-24 | `symbol()` is the blank exactly for `Identity`, so every binary operation prints a visible operator |
| Operations.Operation.Kind | src/lib.rs:16-24 | the operator of a binary operation prints as the operation's `symbol()` |
| Operations.Operation.Evaluate | src/lib.rs:7-13 | `Identity(v)` stands for `v`; a binary operation stands for its operator's checked application to its operands |
| Operations.Make | src/lib.rs:9-12 | builds the binary operation with the given operator and operands |
| Operations.Candidates | src/lib.rs:55-60 | one step tries four (result, operation) pairs in the order `+`, `*`, `-`, `^`; each result is its operation's checked evaluation on `(a, b)` |
| Operations.ProducedByOperators | src/lib.rs:55-61 | the values one step yields are exactly the successful checked results of the four operators |
| Operations.InProduced | src/lib.rs:55-61 | any successful checked result of an operator is among the values one step yields |
| Expressions.Decimal | src/lib.rs:79 | the numeral of a value is a non-empty digit string with no leading zero |
| Expressions.DecimalRoundTrip | src/lib.rs:79 | reading the printed numeral back gives the value |
| Expressions.Parenthesize | src/lib.rs:80-83 | a printed step is `(`, left, ` `, symbol, ` `, right, `)`: five characters beyond its operands, bracketed |
| Expressions.PairsMembers | src/lib.rs:189-190 | a string is in one row of the product exactly when it joins the row's left string with some right string |
| Expressions.Pairs | src/lib.rs:189-190 | pairing one left string with each right string gives one string per right string |
| Expressions.PairsAt | src/lib.rs:189-190 | the `j`-th string pairs the left string with the `j`-th right string |
| Expressions.Product | src/lib.rs:186-191 | the `cartesian_product` of renderings, printed; it is empty exactly when one side is empty (order, length and members: `ProductAt`, `ProductLength`, `ProductMembers`) |
| Expressions.ProductLength | src/lib.rs:186-191 | the cartesian product of renderings has `|ls| * |rs|` strings |
| Expressions.ProductAt | src/lib.rs:186-191 | the product is in row-major order: entry `i*|rs| + j` prints left `i` with right `j` |
| Expressions.ProductMembers | src/lib.rs:186-191 | a string is in the product exactly when it prints some left rendering with some right rendering |
| FastSearch.Offer | src/lib.rs:62-65 | the first writer wins: the cache gains the result; a cached result keeps its entry and leaves the list unchanged, a new one is stored with its operation and pushed onto the end of the list |
| FastSearch.TryAll | src/lib.rs:55-71 | the state only grows; a halt means the target is cached; without a halt every successful candidate is cached |
| FastSearch.Pair | src/lib.rs:52-71 | one (left, base) step only grows the state, and halts only with the target cached |
| FastSearch.Row | src/lib.rs:51-72 | one left value against a run of base values only grows the state, and halts only with the target cached |
| FastSearch.Pass | src/lib.rs:50-73 | one sweep only grows the state, and halts only with the target cached |
| FastSearch.Run | src/lib.rs:49-74 | repeated sweeps only grow the state, and report a halt only with the target cached |
| FastSearch.Seed | src/lib.rs:36-39 | the initial cache holds exactly the base values, each as `Identity` of itself |
| FastSearch.SeedValid | src/lib.rs:34-46 | the initial state satisfies the solver invariant: list and cache keys agree, every entry evaluates to its key from a discovered left operand and a base value, and a left operand was discovered before its result |
| FastSearch.InsertKeepsRanked | src/lib.rs:62-64 | caching a new result appended to the list keeps every left operand discovered before its result, which makes `format_solution` terminate |
| FastSearch.InsertKeepsSound | src/lib.rs:63 | caching a checked operation on a base right operand keeps every entry sound |
| FastSearch.OfferKeepsValid | src/lib.rs:61-65 | recording a successful step preserves the solver invariant |
| FastSearch.TryAllKeepsValid | src/lib.rs:55-71 | trying the four candidates preserves the invariant |
| FastSearch.RowKeepsValid | src/lib.rs:51-72 | a row of steps from a discovered left value preserves the invariant |
| FastSearch.PassKeepsValid | src/lib.rs:50-73 | a sweep over discovered values preserves the invariant |
| FastSearch.RunKeepsValid | src/lib.rs:49-74 | any number of sweeps preserves the invariant |
| FastSearch.PairOutcome | src/lib.rs:55-70 | a step halts exactly when the target is among its results; otherwise all its results are cached |
| FastSearch.TryAllHit | src/lib.rs:67-69 | a halt happens only at a candidate whose result is the target |
| FastSearch.RowOutcome | src/lib.rs:51-72 | a row halts exactly when some of its pairs produces the target; otherwise every result of the row is cached |
| FastSearch.PassHalts | src/lib.rs:50-73 | a sweep halts exactly when some (left, base) pair produces the target, whether or not the target was cached before |
| FastSearch.PassCovers | src/lib.rs:50-73 | after a sweep without a halt, every result of every (left, base) pair is cached |
| FastSearch.RunSettled | src/lib.rs:49-74 | once the search has halted, more passes change nothing |
| FastSearch.FastFormat | src/lib.rs:77-85 | `format_solution`: the rebuilt string is non-empty and starts with `(` exactly when the cached operation is binary; `FastFormatDerives` proves it prints a chain evaluating to the value |
| FastSearch.FastFormatDerives | src/lib.rs:77-85 | the rebuilt string is the printed form of a left-deep chain over the base values that evaluates to the cached value without overflow |
| FastSearch.FastSolver.constructor | src/lib.rs:34-46 | a new solver has list equal to the base, the seed cache, and satisfies the invariant |
| FastSearch.FastSolver.Record | src/lib.rs:62-65 | recording a result updates the state as `Offer` (first writer wins) |
| FastSearch.FastSolver.Step | src/lib.rs:52-71 | the four candidate loop updates the state and reports a halt as `Pair` |
| FastSearch.FastSolver.Sweep | src/lib.rs:50-73 | the nested loops over the list as it was at sweep start and over the base act as `Pass` |
| FastSearch.FastSolver.IterateUntil | src/lib.rs:48-75 | keeps the solver invariant; the outer loop acts as `Run`: sweeps until a halt or the fuel is spent |
| FastSearch.FastSolver.Solve | src/lib.rs:87-90 | keeps the invariant; answers exactly when the search halted, and the answer prints a chain over the base that evaluates to the target |
| FullSearch.Merge | src/lib.rs:146-155 | an entry at the current level gains exactly the operation at its end; an entry above the level becomes the operation alone at the level; an entry below the level is unchanged |
| FullSearch.Absorb | src/lib.rs:143-162 | recording a result extends the list only at its end and adds the result to the cache |
| FullSearch.AbsorbGrows | src/lib.rs:144-162 | a new entry gets the current level; entries at most at the level keep their complexity and only gain operations at their end |
| FullSearch.AbsorbRecords | src/lib.rs:144-162 | afterwards the result is cached at most at the level, and the operation is recorded when the result is at the level |
| FullSearch.AbsorbBelow | src/lib.rs:154 | a result already cached below the level is left unchanged |
| FullSearch.AbsorbedStays | src/lib.rs:144-162 | what is recorded stays recorded while the sweep goes on |
| FullSearch.Combine | src/lib.rs:137-164 | trying the candidates extends the list only at its end |
| FullSearch.FullPair | src/lib.rs:134-164 | one (left, base) step extends the list only at its end |
| FullSearch.FullRow | src/lib.rs:133-165 | one left value against the base extends the list only at its end |
| FullSearch.FullPass | src/lib.rs:132-166 | one sweep extends the list only at its end |
| FullSearch.CombineGrows | src/lib.rs:137-164 | the candidates of one step only grow the state at the current level |
| FullSearch.RowGrows | src/lib.rs:133-165 | a row only grows the state at the current level |
| FullSearch.PassGrows | src/lib.rs:132-166 | a sweep only grows the state at the current level |
| FullSearch.Climb | src/lib.rs:130-170 | `iterate_until` as a function of the state: a cached target stops it before any sweep, and the level rises by at most `fuel`; `ClimbValid` proves it keeps the invariant |
| FullSearch.ClimbStep | src/lib.rs:131-169 | with the target not cached, one round is a sweep at the current level followed by the climb from the next level |
| FullSearch.ClimbLevel | src/lib.rs:130-170 | each sweep raises the level by exactly one: a loop that stops short of its fuel has cached the target |
| FullSearch.FullSeed | src/lib.rs:109-120 | the initial cache holds exactly the base values, each at complexity 0 with the single operation `Identity` |
| FullSearch.FullSeedValid | src/lib.rs:107-128 | the initial state at `iterations == 1` satisfies the between-sweeps invariant |
| FullSearch.StratifiedFromPartial | src/lib.rs:172-194 | under the invariant both operands of a recorded step are cached below its result, so the recursion of `format_solution` terminates |
| FullSearch.UpdateKeepsShape | src/lib.rs:144-162 | an update at the level keeps the list and the keys in step, keeps the base entries and keeps every complexity within the level |
| FullSearch.UpdateKeepsOpsSound | src/lib.rs:144-162 | recording a checked step from a left operand one level lower keeps every recorded operation sound |
| FullSearch.UpdateKeepsClosed | src/lib.rs:144-162 | an update keeps every finished lower level closed |
| FullSearch.UpdateKeepsComplete | src/lib.rs:144-162 | an update keeps every lower-level step recorded for its result |
| FullSearch.AbsorbUpdates | src/lib.rs:144-162 | a step from a left operand cached just below the level, whose result is not cached lower, is an update at the level |
| FullSearch.AbsorbKeepsPartial | src/lib.rs:143-162 | recording a fitting step preserves the invariant that holds during a sweep |
| FullSearch.FitsFromClosed | src/lib.rs:134-143 | a successful step from an operand below the level is one the sweep may record |
| FullSearch.CoveredStays | src/lib.rs:132-166 | steps already recorded stay recorded while the sweep goes on |
| FullSearch.EligibleStays | src/lib.rs:132-166 | an operand that qualifies at the start of a sweep still qualifies later in it |
| FullSearch.AbsorbStepKeeps | src/lib.rs:143-162 | recording an eligible successful step preserves the invariant and the operand's eligibility |
| FullSearch.CombineKeeps | src/lib.rs:137-164 | the four candidates of an eligible pair preserve the invariant |
| FullSearch.CombineKeepsSome | src/lib.rs:143-164 | the same, when the first candidate succeeds |
| FullSearch.CombineAbsorbs | src/lib.rs:137-164 | after the candidates, every successful one is recorded |
| FullSearch.CandidateOf | src/lib.rs:137-142 | every binary operation is one of the candidates tried on its operands |
| FullSearch.PairKeeps | src/lib.rs:134-164 | a step from a value below the level and a base value preserves the invariant |
| FullSearch.PairAbsorbs | src/lib.rs:134-164 | after a step, all its successful operations are recorded |
| FullSearch.RowKeeps | src/lib.rs:133-165 | a row preserves the invariant and records every successful step of the row |
| FullSearch.PassKeeps | src/lib.rs:132-166 | a sweep preserves the invariant and records every successful step from the values known at its start |
| FullSearch.LevelUpClosed | src/lib.rs:132-168 | after a full sweep, the level just swept is closed: every result of a value below it is cached no higher than one level above that value |
| FullSearch.LevelUpComplete | src/lib.rs:132-168 | after a full sweep, every step reaching a value at the level just swept is recorded |
| FullSearch.LevelUp | src/lib.rs:131-169 | a sweep at `iterations` followed by `iterations += 1` preserves the between-sweeps invariant |
| FullSearch.ClimbValid | src/lib.rs:130-170 | `iterate_until` preserves the between-sweeps invariant |
| FullSearch.FullFormat | src/lib.rs:172-194 | `format_solution`: a value that is not cached gives the empty list (lines 173-178); `FullFormatExact` proves a cached value's renderings are exactly the prints of its least-size chains |
| FullSearch.FormatOps | src/lib.rs:179-193 | the flat map over the operations contains every rendering of each operation |
| FullSearch.FormatOp | src/lib.rs:181-191 | an `Identity` renders as one numeral; a step's renderings are empty exactly when one operand has none |
| FullSearch.FormatOpsMembers | src/lib.rs:179-193 | the flat-mapped renderings are exactly the renderings of the individual operations |
| FullSearch.FormatOpsLength | src/lib.rs:179-193 | the flat map keeps every rendering of every operation: its length is their sum |
| FullSearch.ChainReached | src/lib.rs:130-170 | every chain over the base shorter than the level reaches a value cached at complexity at most its size |
| FullSearch.Minimal | src/lib.rs:130-170 | between sweeps, a cached value's complexity is at most the size of any chain reaching it |
| FullSearch.Witness | src/lib.rs:130-170 | every cached value is reached by a chain over the base whose size is its complexity |
| FullSearch.OpSoundAt | src/lib.rs:144-162 | every recorded operation of a cached value is sound |
| FullSearch.BaseFormat | src/lib.rs:182 | a base value renders as its single numeral |
| FullSearch.FormatDerives | src/lib.rs:172-194 | every rendering of a cached value prints a chain over the base that reaches the value with size equal to its complexity |
| FullSearch.OpDerives | src/lib.rs:181-191 | the same for the renderings of one recorded operation |
| FullSearch.StepRendered | src/lib.rs:186-191 | a rendering of the left operand combined with the right numeral is a rendering of the result |
| FullSearch.NumRendered | src/lib.rs:182 | a value at complexity 0 renders as its numeral |
| FullSearch.MinimalStep | src/lib.rs:144-162 | the last step of a minimal chain is recorded for its value, and its left part is minimal for the left operand |
| FullSearch.FormatComplete | src/lib.rs:172-194 | every minimal chain reaching a cached value appears among its renderings |
| FullSearch.FullFormatExact | src/lib.rs:172-194 | between sweeps, a string is a rendering of a cached value exactly when it prints a chain over the base of least size reaching that value |
| FullSearch.FullFormatNonEmpty | src/lib.rs:172-194 | a cached value has at least one rendering |
| FullSearch.FullSolver.constructor | src/lib.rs:107-128 | a new solver has list equal to the base, the seed cache, `iterations == 1`, and satisfies the invariant |
| FullSearch.FullSolver.Record | src/lib.rs:143-162 | the entry update acts as `Absorb` at the current level |
| FullSearch.FullSolver.Step | src/lib.rs:134-164 | the four candidate loop acts as `FullPair` |
| FullSearch.FullSolver.Sweep | src/lib.rs:132-166 | the nested loops over the list as it was at sweep start and over the base act as `FullPass` |
| FullSearch.FullSolver.Level | src/lib.rs:132-168 | a sweep followed by `iterations += 1` |
| FullSearch.FullSolver.IterateUntil | src/lib.rs:130-170 | keeps the solver invariant; the loop acts as `Climb` and reports whether the target is cached |
| FullSearch.FullSolver.Solve | src/lib.rs:196-199 | keeps the invariant; a target not found gives the empty list; a found target gives a non-empty list whose strings are exactly the prints of the least-size chains reaching it |

## Left out

- `src/main.rs` (the command-line program: it parses the arguments, runs
  `FastSolver::new` and `solve`, and prints the result) is not part of this model.
- FastSearch.FastSolver.IterateUntil: the Rust loop runs until the target is
  produced and never ends otherwise. The model takes a `fuel` bound on the
  number of sweeps and reports whether the halt was reached. What happens
  after fuel runs out is not modelled.
- FastSearch.FastSolver.Solve: returns `None` when the fuel bound cut the
  search short. The Rust `unwrap` in `format_solution` (src/lib.rs:78) becomes the
  precondition `v in cache`, and the model proves that it holds after a halt.
- FullSearch.FullSolver.IterateUntil: the same `fuel` bound on sweeps
  replaces the `while` loop, which does not end for an unreachable target.
- FullSearch.FullSolver.Solve: when the fuel bound stops the search first,
  the answer is the empty list, which is what the Rust code returns for a
  missing value (src/lib.rs:173-178).
- FullSearch.FullSolver.Level: `iterations` and `complexity` are `u32` in
  Rust; the model uses unbounded `nat`, so the overflow of
  `iterations += 1` after 2^32 - 1 sweeps is not modelled (it panics in
  debug builds and wraps to 0 in release builds).
- `HashMap` hashing, capacity and iteration order are not modelled. The
  caches are Dafny `map`s; no result depends on the map's order.
- String formatting through `format!`, `to_string` and itertools'
  `cartesian_product` is modelled by `Decimal`, `Parenthesize` and
  `Product`. Allocation and the repeated recomputation of sub-renderings in
  `format_solution` (a performance matter) are not modelled.
- `checked_pow` is modelled by its mathematical meaning (`Pow`), not by
  Rust's repeated-squaring implementation.
- The `Debug`, `Copy` and `Clone` derives are not modelled. The variant
  `Substraction` is named `Subtraction`.
- The inner loops of both `iterate_until` functions are split into the
  methods `Record`, `Step`, `Sweep` (and `Level` for the full solver).
