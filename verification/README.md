# bool-expr in Dafny

A model of `bool-expr`, a small Rust library of Boolean expression trees. A
tree is a variable `Var(u8)`, a negation, or an exclusive or, conjunction or
disjunction of two subtrees. The repository holds two snapshots of the same
design:

- **First snapshot** (`src/expr.rs`, `src/algo.rs`). The binary operators
  `& | ^` first put their operands in a canonical order by a `u16` rank. They
  and `!` then build the node through "smart" constructors. These eliminate double negation
  and apply idempotence. They also recognise exclusive or and its complement,
  and rewrite a conjunction of two negations.
- **Second snapshot** (`src/lib.rs`, `src/ops.rs`, `src/cmp.rs`). The operators
  build plain nodes. `cmp.rs` adds a hand-written structural equality and an
  ordering that compares the precedence values of the two trees.

Both snapshots have the same index helpers: lowest and highest index, shift
up and down by one, and variable count. Both also have the truth-table
synthesizer `from_outputs`. It panics on a length that is not a power of two
or is below 2. Tables of 2 and 4 outputs map to fixed trees. A longer table is
synthesized half by half, and the two trees are joined on a fresh variable 0
as `(!v0 & a) | (v0 & b)`.

The library itself has no evaluator. The model adds one (`Syntax.Eval`, with
variables past the end of the assignment reading as false) so that rewrites
and synthesis can be judged by meaning.

A table is read the way the recursion reads it: variable k of an n-variable
table is bit n-1-k of the row index, most significant bit first
(`TruthTable.Bits`, `TruthTable.Realises`).

Modules:

| module | file | models |
|---|---|---|
| `Syntax` | syntax.dfy | the `Expr` enum shared by both snapshots, plus meaning, size, variables and shape |
| `Indices` | indices.dfy | `lowest`/`highest` (`low_var`/`high_var`), `inc_vars`, `dec_vars`, `vars` |
| `TruthTable` | table.dfy | power-of-two lengths, the row reading, the panic outcomes of `from_outputs` |
| `Algo` | algo.dfy | src/algo.rs |
| `SnapshotA` | snapshot_a.dfy | the operator impls and `from_outputs` of src/expr.rs |
| `Ops` | ops.dfy | src/ops.rs |
| `Cmp` | cmp.dfy | src/cmp.rs |
| `SnapshotB` | snapshot_b.dfy | `from_outputs` of src/lib.rs |
| `Intended` | intended.dfy | the corrected definitions listed under Findings |

The model follows the code:

- `prec` ranks the higher variable index first.
- `&` and `|` commute only when the operand ranks differ or the operands are
  equal.
- Synthesis does not reproduce every table (see Findings).

## Model

| member | source | states |
|---|---|---|
| Indices.Lowest | src/expr.rs:14-22 | the lowest index is an index that occurs in the tree |
| Indices.LowestIsLeast | src/expr.rs:14-22 | no index in the tree is below the lowest index |
| Indices.Highest | src/expr.rs:23-31 | the highest index is an index that occurs in the tree |
| Indices.HighestIsGreatest | src/expr.rs:23-31 | no index in the tree is above the highest index |
| Indices.HighestBound | src/expr.rs:23-31 | any given index that occurs is at most the highest index |
| Indices.IncVars | src/expr.rs:32-40 | shifting up keeps the shape and raises the lowest and highest index by one each; the highest index must be below 255 |
| Indices.IncVarsEval | src/expr.rs:32-40 | the shifted tree under `[b] + env` has the value the original has under `env`, for any `b` |
| Indices.DecVars | src/expr.rs:41-51 | a tree that mentions variable 0 is returned unchanged; otherwise the shape is kept and the lowest index drops by one |
| Indices.DecIncRoundTrip | src/expr.rs:32-51 | shifting down undoes shifting up |
| Indices.IncDecRoundTrip | src/expr.rs:32-51 | shifting up undoes shifting down whenever the lowest index is above 0 |
| Indices.DecVarsEval | src/expr.rs:41-51 | when the lowest index is above 0, the lowered tree under `env` has the value the original has under `[b] + env` |
| Indices.Vars | src/expr.rs:52-55 | the count is at least 1 and above every index, and the index just below it occurs (the same definition appears at src/lib.rs:33-36) |
| Algo.Prec | src/algo.rs:3-11 | the rank stays in `u16` without underflow for every index up to 255 |
| Algo.PrecRanks | src/algo.rs:3-11 | variables rank below negations, then exclusive ors, conjunctions and disjunctions; among variables the higher index ranks lower; two nodes tie exactly when they are the same kind and, for variables, the same index |
| Algo.Sort | src/algo.rs:13-21 | the result is the input pair or its swap, in rank order, and equal ranks keep the input order |
| Algo.SortMut | src/algo.rs:22-26 | the in-place sort leaves the same pair as `sort` |
| Algo.RawNot | src/algo.rs:28-30 | negates the meaning and adds one node |
| Algo.SmartNot | src/algo.rs:31-36 | negates the meaning and keeps the variables; a negation loses its `Not`, anything else gains one |
| Algo.NotInvolution | src/algo.rs:31-36 | negating twice gives the tree back exactly when it is not a double negation |
| Algo.RawXor | src/algo.rs:37-39 | exclusive or of the meanings, one more node, union of the variables |
| Algo.SmartXor | src/algo.rs:40-44 | always exactly `Xor(lhs, rhs)`, which means the exclusive or |
| Algo.RawAnd | src/algo.rs:45-47 | conjunction of the meanings, one more node, union of the variables |
| Algo.SmartAnd | src/algo.rs:48-55 | idempotent; keeps the meaning unless both operands are negations; no new variables and no index above the operands' highest; at most one more node |
| Algo.AndOfNegations | src/algo.rs:51 | two distinct negations become the negation of the unsorted conjunction of their operands |
| Algo.AndOfNegationsIsNand | src/algo.rs:51 | that rewrite evaluates to not-(a and b) |
| Algo.AndOfNegationsUnsound | src/algo.rs:51 | with v0 true and v1 false, `!v0 & !v1` is false but its rewrite is true |
| Algo.AndRecognisesXor | src/algo.rs:52 | `!(c & d) & (c or d)` becomes `c ^ d` |
| Algo.XorRuleSound | src/algo.rs:52 | `!(c & d) & (c or d)` and `c ^ d` have the same value under every assignment |
| Algo.RawOr | src/algo.rs:56-58 | disjunction of the meanings, one more node, union of the variables |
| Algo.SmartOr | src/algo.rs:59-65 | idempotent; always keeps the meaning; no new variables and no index above the operands' highest |
| Algo.OrRecognisesXnor | src/algo.rs:62 | `!(c or d) or (c & d)` becomes `!(c ^ d)` |
| Algo.XnorRuleSound | src/algo.rs:62 | `!(c or d) or (c & d)` and `!(c ^ d)` have the same value under every assignment |
| Algo.NoDoubleNegation | src/algo.rs:48-65 | from operands that are not double negations, neither rewriting constructor builds a double negation |
| SnapshotA.BitAnd | src/expr.rs:97-103 | idempotent; conjunction of the meanings unless both operands are negations; no new variables |
| SnapshotA.BitOr | src/expr.rs:104-110 | idempotent; disjunction of the meanings; no new variables |
| SnapshotA.BitXor | src/expr.rs:111-117 | an `Xor` of the two operands in rank order, meaning their exclusive or |
| SnapshotA.BitNot | src/expr.rs:118-124 | negates the meaning and strips one `Not` |
| SnapshotA.Commutes | src/expr.rs:97-117 | the three binary operators give the same tree for both operand orders when the ranks differ or the operands are equal |
| SnapshotA.TiesAreNotCommuted | src/expr.rs:97-117 | `!v0 & !v1` and `!v1 & !v0` give different trees, and so do the two `^` orders |
| SnapshotA.HigherIndexFirst | src/algo.rs:5 | `v0 & v1` builds `And(v1, v0)` |
| SnapshotA.DoubleNot | src/expr.rs:118-124 | `!!x` is `x` exactly when `x` is not a double negation |
| SnapshotA.Table2 | src/expr.rs:64-67 | the four closed forms for one variable mention variable 0 only |
| SnapshotA.Table2Reading | src/expr.rs:64-67 | a table of two outputs is reproduced exactly when it is constant; the two other rows reproduce the swapped table |
| SnapshotA.Table4 | src/expr.rs:69-84 | the sixteen closed forms for two variables mention variables 0 and 1 only |
| SnapshotA.Table4Reading | src/expr.rs:68-84 | every table of four outputs except `[T,T,F,F]` is reproduced; that row's tree reproduces `[F,F,T,T]` |
| SnapshotA.RowsCollide | src/expr.rs:72 | `[T,T,F,F]` and `[F,F,T,T]` both give `Var(0)` |
| SnapshotA.Shannon | src/expr.rs:92 | the join mentions variable 0 and the variables of the two subtrees only, so its highest index is at most theirs |
| SnapshotA.ShannonSelects | src/expr.rs:92 | when the first subtree is not a negation, the join reads as the first subtree with v0 false and as the second with v0 true |
| SnapshotA.Join | src/expr.rs:88-92 | shifting both halves up and joining them raises the highest index by one at most |
| SnapshotA.FromOutputs | src/expr.rs:56-95 | panics exactly on lengths that are not a power of two of at least 2, with the power-of-two assertion checked first, so a length of 1 fails the minimum-length assertion; every index of the result is below the number of variables of the table |
| SnapshotA.ShannonReading | src/expr.rs:87-93 | the joined tree reproduces a table exactly when the halves' trees reproduce its halves, provided the first half's tree is not a negation |
| SnapshotA.NegatedHalfTree | src/expr.rs:87-93 | the table `[T,F,T,F,F,F,F,F]` is synthesized as `!(v0 & v2) or (v0 & (v1 & !v1))` |
| SnapshotA.NegatedHalfMisread | src/expr.rs:87-93 | that tree is wrong at row 4 (v0 true, v1 and v2 false) |
| TruthTable.IsPowerOfTwo | src/expr.rs:60 | the `is_power_of_two` test, zero excluded (also src/lib.rs:40); `PowerOfTwoLog` states that such a length is `Pow2(Log2(n))` and `HalfOfValid` that it halves into valid lengths |
| TruthTable.PowerOfTwoLog | src/expr.rs:60 | a length that passes the power-of-two test is 2 raised to its base-2 logarithm |
| TruthTable.RealisesEveryAssignment | src/expr.rs:86-92 | a table of 2^n outputs has one row per assignment of n variables, so reproducing it means agreeing with the row of every assignment |
| TruthTable.HalfOfValid | src/expr.rs:86-89 | the recursive arm only sees lengths of at least 8, so both halves are valid lengths of at least 4 and neither assertion fires |
| TruthTable.SplitReading | src/expr.rs:88-92 | variable 0 selects the half: a tree that reads as `a` with v0 false and as `b` with v0 true reproduces a table exactly when `a` and `b` reproduce its halves |
| Ops.BitXor | src/ops.rs:4-9 | `Xor(x, y)` in argument order: exclusive or of the meanings, one more node |
| Ops.BitAnd | src/ops.rs:10-15 | `And(x, y)` in argument order: conjunction of the meanings, one more node |
| Ops.BitOr | src/ops.rs:16-21 | `Or(x, y)` in argument order: disjunction of the meanings, one more node |
| Ops.BitNot | src/ops.rs:22-27 | `Not(x)`: negation of the meaning, one more node |
| Ops.NoSimplification | src/ops.rs:4-27 | no operator is idempotent, `!!x` is never `x`, and swapping distinct operands always changes the tree |
| Cmp.Eq | src/cmp.rs:12-21 | the recursive structural comparison of `PartialEq::eq`; `EqIsEquality` states that it is exactly equality of trees |
| Cmp.EqIsEquality | src/cmp.rs:11-22 | the hand-written equality holds exactly for equal trees: equal indices, pairwise equal children, never across variants |
| Cmp.EqIsEquivalence | src/cmp.rs:10-22 | the equality is reflexive, symmetric and transitive, as `impl Eq` promises |
| Cmp.PartialCmp | src/cmp.rs:23-35 | always `Some`; `Equal` exactly for equal precedence and `Less` exactly for lower precedence |
| Cmp.PartialCmpIsTotalPreorder | src/cmp.rs:23-35 | a total preorder: swapping the operands swaps `Less` and `Greater`; `Less` and `Equal` are transitive |
| Cmp.CmpAgreesWithEqIff | src/cmp.rs:10-35 | `Equal` coincides with the equality exactly when the precedence separates all distinct trees |
| Cmp.EqualWithoutEq | src/cmp.rs:23-35 | two distinct trees of equal precedence compare `Equal` although they are not equal |
| SnapshotB.Table2 | src/lib.rs:44-47 | the four closed forms for one variable mention variable 0 only |
| SnapshotB.Table4 | src/lib.rs:49-64 | the sixteen closed forms for two variables mention variables 0 and 1 only |
| SnapshotB.BaseRowsAgree | src/lib.rs:43-64 | tables of two and four outputs give the same trees as in the first snapshot |
| SnapshotB.Table4Agrees | src/lib.rs:49-64 | each of the sixteen closed forms is the tree the first snapshot builds for that row |
| SnapshotB.Table4Reading | src/lib.rs:49-64 | every table of four outputs except `[T,T,F,F]` is reproduced |
| SnapshotB.Join | src/lib.rs:67-72 | the joined tree is a disjunction of `!v0 & _` and `v0 & _`; it reads as `a` with v0 false and as `b` with v0 true, and raises the highest index by one at most |
| SnapshotB.FromOutputs | src/lib.rs:37-75 | panics exactly on lengths that are not a power of two of at least 2, with the power-of-two assertion checked first, so a length of 1 fails the minimum-length assertion; every index of the result is below the number of variables of the table |
| SnapshotB.Step | src/lib.rs:67-72 | two tables of 4 or more outputs of equal length, concatenated, give the join of their trees, and the shift cannot overflow |
| SnapshotB.HalvesRecoverable | src/lib.rs:67-72 | the tree is `Or(And(Not(v0), a'), And(v0, b'))` and shifting `a'` and `b'` down gives the halves' trees back |
| SnapshotB.JoinReading | src/lib.rs:67-72 | the joined tree reproduces a table exactly when the halves' trees reproduce its halves |
| SnapshotB.Reading2 | src/lib.rs:44-47 | a table of two outputs is reproduced exactly when it is constant |
| SnapshotB.Reading4 | src/lib.rs:49-64 | a table of four outputs is reproduced exactly when it is not `[T,T,F,F]` |
| SnapshotB.FromOutputsReading | src/lib.rs:37-75 | a table of two outputs is reproduced exactly when it is constant, and a longer one exactly when no aligned block of four outputs is `[T,T,F,F]` |
| Intended.SmartAnd | src/algo.rs:48-55 | with `!a & !b` rewritten to `!(a or b)`, the conjunction always keeps the meaning |
| Intended.SmartAndAgrees | src/algo.rs:48-55 | for operands that are not double negations, the correction changes the result exactly for two distinct negations whose operands' conjunction and disjunction trees differ |
| Intended.Table2 | src/expr.rs:64-67 | with the middle rows swapped, the tree has the table's output at v0 false and at v0 true |
| Intended.Table4 | src/expr.rs:69-84 | with `[T,T,F,F]` mapped to `!v0`, the tree has the table's output at each of the four assignments in row order |
| Intended.FromOutputs | src/lib.rs:37-75 | same panics as the source synthesizer (not a power of two, then a length of 1 too short) and the same index bound |
| Intended.Step | src/lib.rs:67-72 | two tables of 4 or more outputs of equal length, concatenated, give the join of their trees |
| Intended.FromOutputsRealises | src/lib.rs:37-75 | the corrected synthesizer reproduces every table whose length is a power of two of at least 2 |
| Intended.AgreesOffCollisions | src/lib.rs:37-75 | on tables of four or more outputs with no `[T,T,F,F]` block, the corrected synthesizer builds the same tree as the second snapshot |

## Left out

- The `Debug` derive of the second snapshot: presentation only.
- Ownership: `Box`, `&mut` and `std::mem::swap`. `SortMut`, `IncVars` and `DecVars` return new values instead of mutating in place.
- `#[non_exhaustive]`: it has no run-time behaviour.
- The generic `AsRef<[bool]>` input of `from_outputs` is a `seq<bool>`. A panic is a `Panicked` outcome naming the failed assertion.
- Indices.IncVars: does not model the `u8` overflow of `*id += 1` (a panic in debug builds, wrap-around in release). It requires the highest index to be below 255.
- SnapshotA.FromOutputs: requires at most 256 variables. Beyond that, `inc_vars` would overflow, which is not modelled.
- SnapshotB.FromOutputs: requires at most 256 variables, for the same reason.
- Intended.FromOutputs: requires at most 256 variables, for the same reason.
- SnapshotA.FromOutputs: which tables of 8 or more outputs it reproduces is not characterised. `ShannonReading` covers the step when the first half's tree is not a negation, and `NegatedHalfMisread` covers a step where it is.
- Cmp.PartialCmp: `precedence()` is not among the second snapshot's files, so it is a parameter of the comparison and its lemmas.
- The second snapshot's `low_var` and `high_var` are not among its files either. They are taken to be `Indices.Lowest` and `Indices.Highest`, and the second snapshot's `inc_vars`, `dec_vars` and `vars` (src/lib.rs:13-36) are the `Indices` members.
- Tree size and performance.

## Findings

| source | as written | input that shows it | evidently intended | confidence | as-written member | corrected member |
|---|---|---|---|---|---|---|
| src/algo.rs:51 | `!a & !b` is rewritten to `!(a & b)` | a = v0, b = v1, with v0 true and v1 false: `!v0 & !v1` is false, the rewrite is true | `!(a or b)` (De Morgan's law) | high; not executed | Algo.AndOfNegationsUnsound | Intended.SmartAnd |
| src/expr.rs:65-66 | `[true, false]` gives `Var(0)` and `[false, true]` gives `!Var(0)`; the same rows are at src/lib.rs:45-46 | `[true, false]`: row 0 has v0 false, so `Var(0)` is false where the table says true | the two trees swapped, matching the row order of the length-4 forms and of the recursion | medium; not executed | SnapshotA.Table2Reading | Intended.Table2 |
| src/expr.rs:72 | `[true, true, false, false]` gives `Var(0)`, the same tree as `[false, false, true, true]` at line 81; the same rows are at src/lib.rs:52 and 61 | row 0 (v0 and v1 false): `Var(0)` is false where the table says true | `!Var(0)` | high; not executed | SnapshotA.Table4Reading | Intended.Table4 |
