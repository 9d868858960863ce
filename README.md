# hado: monads and the `hado!` sequencing macro, in Dafny

The `hado` crate gives Rust a `Monad` trait with two operations, `bind` and
`ret`, implements it for `Option`, `Result` and `Vec`, and provides the
`hado!` macro. The macro turns a linear sequence of steps such as

    a <- vec![0, 1, 2];
    b <- vec![a, a];
    ret(Vec<u32>) b

into nested calls `Monad::bind(vec![0, 1, 2], |a| Monad::bind(vec![a, a], |b| Monad::<Vec<u32>>::ret(b)))`.

This project models both parts.

- `option_monad.dfy`, `result_monad.dfy` and `vec_monad.dfy` hold one module per
  instance. Each has its own `Bind` and `Ret`; the trait's dispatch is not
  modelled. `Option` and `Result` are datatypes and their `bind` is a
  function. The `Vec` `bind` appears twice. `VecMonad.ConcatMap` is a recursive
  function and serves as the specification. `VecMonad.Bind` is a method with
  the source's loop: it appends `f(v)` to an accumulator for each element in
  order, and it is proved equal to `ConcatMap`. Each module proves the three
  monad laws and the source's unit tests.
- `hado.dfy` models the macro. Its input is already parsed: a sequence of
  steps (`Bind(lhs, rhs)` for `lhs <- rhs;`, `Stmt(s)` for `s;`) and one
  terminal (`Ret(ty, e)` for `ret(ty) e` or `ret e`, `Tail(e)` for a bare
  expression). Its output is a term (`BindCall`, `Block`, `RetCall`, `Raw`).
  A closure parameter is a `Param`: `Wildcard` for `|_|` or `Named(x)` for
  `|x|`. A `ret` type is an `Annotation`: `Inferred` or `Annotated(ty)`.
  `Desugar` applies one rule per step. It is generic in the syntax of types,
  expressions and statements, so it cannot depend on which monad is used. A
  step whose left side is `ign` becomes a bind whose closure parameter is the
  wildcard `_`. The macro tries its `ign` rule before its identifier rule, so
  `ign` is never bound as a name. `Resugar` reads a term back into steps. Two
  lemmas show that the two functions are inverse on the terms the macro can
  emit, that is, terms with no closure parameter named `ign`.
- `semantics.dfy` gives the emitted terms a meaning in each family. Names hold
  naturals. Expressions are names, naturals, `+` and the literals
  `vec![..]`, `Some(..)`, `None`, `Ok(..)` and `Err(..)`. Statements are
  `let x = e` and `println!`, which changes nothing. A `BindCall` is evaluated
  by the family's own `bind` and a `RetCall` by its own `ret`. The lemmas cover
  four facts. Leading statements run first and the rest sees the scope they
  leave. A `println!` inserted anywhere leaves the result unchanged.
  `x <- e; ret x` means the same as `e`. A failing bind after any leading
  statements decides the result whatever follows.
- `hado_examples.dfy` restates the macro's own tests as equations between
  evaluated sequences.

## Model

| member | source | states |
|---|---|---|
| OptionMonad.Bind | src/lib.rs:33-39 | the definition of `bind`: `Some(t)` gives `f(t)` and `None` gives `None`; its properties are the rows that follow |
| OptionMonad.Ret | src/lib.rs:40-42 | the definition of `ret`: `Some(x)`; see RetIsMinimal and the identity laws |
| OptionMonad.BindSome | src/lib.rs:33-39 | binding `Some(v)` to `f` gives exactly `f(v)` |
| OptionMonad.BindNone | src/lib.rs:33-39 | binding `None` gives `None` whatever the step is; two different steps give the same result, so the step is unused |
| OptionMonad.RetIsMinimal | src/lib.rs:40-42 | `ret(x)` holds one present value, and that value is `x` |
| OptionMonad.BindCongruence | src/lib.rs:33-39 | two steps that agree on the present value give the same bind result |
| OptionMonad.LeftIdentity | src/lib.rs:31-43 | `bind(ret(x), f) == f(x)` |
| OptionMonad.RightIdentity | src/lib.rs:31-43 | `bind(m, ret) == m` for every option `m` |
| OptionMonad.Associativity | src/lib.rs:31-43 | `bind(bind(m, f), g) == bind(m, y -> bind(f(y), g))` |
| OptionMonad.SourceExamples | src/lib.rs:128-137 | `bind(Some(1), x -> Some(x*0)) == Some(0)` and `bind(None, ..) == None` |
| OptionMonad.NestedBindExample | tests/option.rs:12-17 | binding `Some(1)` to a step that binds `Some(2)` and adds gives `Some(3)` |
| ResultMonad.Bind | src/lib.rs:47-53 | the definition of `bind`: `Ok(t)` gives `f(t)` and `Err(e)` gives `Err(e)`; its properties are the rows that follow |
| ResultMonad.Ret | src/lib.rs:54-56 | the definition of `ret`: `Ok(x)`; see RetIsMinimal and the identity laws |
| ResultMonad.BindOk | src/lib.rs:47-53 | binding `Ok(v)` to `f` gives exactly `f(v)` |
| ResultMonad.BindErr | src/lib.rs:47-53 | binding `Err(e)` gives `Err(e)` with the identical payload, whatever the step is |
| ResultMonad.BindFailure | src/lib.rs:47-53 | a bind fails exactly when the input failed or the step failed on its value; the error is the input's error, otherwise the step's |
| ResultMonad.RetIsMinimal | src/lib.rs:54-56 | `ret(x)` is a success holding `x` |
| ResultMonad.BindCongruence | src/lib.rs:47-53 | two steps that agree on the success value give the same bind result |
| ResultMonad.LeftIdentity | src/lib.rs:45-57 | `bind(ret(x), f) == f(x)` |
| ResultMonad.RightIdentity | src/lib.rs:45-57 | `bind(m, ret) == m` for every result `m` |
| ResultMonad.Associativity | src/lib.rs:45-57 | `bind(bind(m, f), g) == bind(m, y -> bind(f(y), g))` |
| ResultMonad.SourceExamples | src/lib.rs:138-147 | `bind(Ok(1), x -> Ok(x*0)) == Ok(0)` and `bind(Err("failed"), ..) == Err("failed")` |
| VecMonad.ConcatMap | src/lib.rs:61-68 | the reference definition of `bind`: `f(t[0])` followed by the result for the rest of `t`; the loop is proved equal to it |
| VecMonad.Ret | src/lib.rs:69-71 | the definition of `ret`: `[x]`; see the identity laws |
| VecMonad.Bind | src/lib.rs:61-68 | the append loop returns the in-order concatenation `ConcatMap(t, f)`; its loop invariant is `acc == ConcatMap(t[..i], f)` |
| VecMonad.ConcatMapSnoc | src/lib.rs:64-66 | one more element at the end adds its list `f(v)` at the end: the loop step |
| VecMonad.ConcatMapAppend | src/lib.rs:61-68 | binding `a + b` is binding `a` followed by binding `b` |
| VecMonad.ConcatMapEmpty | src/lib.rs:149-152 | an empty input gives an empty output, whatever the step is |
| VecMonad.ConcatMapLength | src/lib.rs:61-68 | the result's length is the sum of the lengths of the per-element lists |
| VecMonad.ConcatMapBlock | src/lib.rs:64-66 | the list of element `i` appears unchanged in the result, right after the lists of the elements before it |
| VecMonad.ConcatMapMembership | src/lib.rs:61-68 | a value is in the result exactly when some element's list contains it |
| VecMonad.ConcatMapCongruence | src/lib.rs:61-68 | two steps that agree on every element of the input give the same bind result |
| VecMonad.LeftIdentity | src/lib.rs:59-72 | `bind(ret(x), f) == f(x)`, where `ret(x)` is `[x]` |
| VecMonad.RightIdentity | src/lib.rs:59-72 | `bind(m, ret) == m` for every list `m` |
| VecMonad.Associativity | src/lib.rs:59-72 | `bind(bind(m, f), g) == bind(m, y -> bind(f(y), g))` for concat-map |
| VecMonad.SourceExamples | src/lib.rs:148-161 | empty input gives `[]`, `[0,0]` with `_ -> [0,0]` gives four zeros, and `[0,1,2]` with `x -> [x,x]` gives `[0,0,1,1,2,2]` |
| VecMonad.ThreeByTwoExample | tests/list.rs:14-19 | `[0,0,0]` with `_ -> [0,0]` gives six zeros |
| Hado.Desugar | src/lib.rs:4-23 | the macro, one rule per step in the macro's priority order; its properties are the rows that follow |
| Hado.DesugarTerminal | src/lib.rs:5-10 | a lone `ret(ty) e` or `ret e` becomes a `ret` call that keeps the annotation or its absence; a bare expression (lines 20-22) is emitted unchanged |
| Hado.DesugarIgnoredBind | src/lib.rs:11-13 | `ign <- e; rest` becomes `bind(e, _ -> rest)`: the ign rule wins over the identifier rule |
| Hado.DesugarNamedBind | src/lib.rs:14-16 | `x <- e; rest`, for `x` other than `ign`, becomes `bind(e, x -> rest)` |
| Hado.DesugarStatement | src/lib.rs:17-19 | `stmt; rest` becomes the block `{ stmt; rest }` |
| Hado.DesugarResugar | src/lib.rs:4-23 | the emitted term reads back as exactly the steps and terminal it came from: no step is lost, added or reordered |
| Hado.DesugarEmittable | src/lib.rs:11-16 | the macro never emits a closure parameter named `ign` |
| Hado.ResugarDesugar | src/lib.rs:4-23 | every term without an `ign` parameter is the expansion of the steps it reads back as |
| Semantics.PrintlnNeutralOption | src/lib.rs:87-95 | for Option, a `println!` inserted anywhere among the steps leaves the result unchanged |
| Semantics.PrintlnNeutralResult | src/lib.rs:17-19 | for Result, a `println!` inserted anywhere among the steps leaves the result unchanged |
| Semantics.PrintlnNeutralVec | src/lib.rs:17-19 | for Vec, a `println!` inserted anywhere among the steps leaves the result unchanged |
| Semantics.RetOfBoundNameOption | src/lib.rs:5-16 | for Option, ending with `x <- e; ret x` (annotated or not) is the same as ending with `e`, after any steps |
| Semantics.RetOfBoundNameResult | src/lib.rs:5-16 | for Result, ending with `x <- e; ret x` is the same as ending with `e`, after any steps |
| Semantics.RetOfBoundNameVec | src/lib.rs:105-115 | for Vec, ending with `x <- e; ret(Vec) x` is the same as ending with `e`, after any steps |
| Semantics.StatementsRunFirstOption | src/lib.rs:17-19 | for Option, leading statements run first, in order, and the rest is evaluated in the scope they leave |
| Semantics.StatementsRunFirstResult | src/lib.rs:17-19 | for Result, leading statements run first, in order, and the rest is evaluated in the scope they leave |
| Semantics.StatementsRunFirstVec | src/lib.rs:17-19 | for Vec, leading statements run first, in order, and the rest is evaluated in the scope they leave |
| Semantics.AbsentBindOption | src/lib.rs:35-38 | after any leading statements, a bind on `None` makes the whole sequence `None`, and nothing after it changes the result |
| Semantics.FailedBindResult | src/lib.rs:49-52 | after any leading statements, a bind on `Err(m)` makes the whole sequence `Err(m)`, and nothing after it changes the result |
| Semantics.EmptyBindVec | src/lib.rs:63-67 | after any leading statements, a bind on an empty list makes the whole sequence empty, and nothing after it changes the result |
| Semantics.IgnoredBindOption | src/lib.rs:11-13 | for Option, `ign <- e; rest` means `bind(e, _ -> rest)` evaluated in the unchanged scope |
| Semantics.IgnoredBindResult | src/lib.rs:11-13 | for Result, `ign <- e; rest` means `bind(e, _ -> rest)` evaluated in the unchanged scope |
| Semantics.IgnoredBindVec | src/lib.rs:11-13 | for Vec, `ign <- e; rest` means the rest's result once for each element of `e` |
| HadoExamples.OptionSequences | src/lib.rs:78-95 | `x <- Some(1); y <- Some(2); Some(x + y)` is `Some(3)`, also with a `println!` between the binds |
| HadoExamples.VecTailSequence | src/lib.rs:111-114 | `a <- vec![0,1,2]; vec![a,a]` is `[0,0,1,1,2,2]` |
| HadoExamples.VecRetSequence | src/lib.rs:97-115 | `a <- vec![0,1,2]; b <- vec![a,a]; ret(Vec<u32>) b` is `[0,0,1,1,2,2]` and equals the bare-tail form |
| HadoExamples.VecRetSequenceWithPrintln | tests/lib.rs:24-32 | the same sequence with a `println!` after the first bind is still `[0,0,1,1,2,2]` |
| HadoExamples.IgnoredVecSequences | src/lib.rs:116-126 | `ign <- vec![0,1,2]; let b = 7; ret(Vec<u32>) b` and `ign <- vec![0,1,2]; vec![7]` are both `[7,7,7]` |

## Left out

- The trait `Monad` with its associated type `Inner`, Rust's type inference that
  picks an instance, and the `type_ascription` feature (src/lib.rs:1, 25-29):
  each family has its own `Bind`/`Ret`. In `Semantics` the family is fixed by
  choosing the evaluator.
- The macro's token matching (`tt`, `stmt`, `expr` fragments): steps come
  already parsed. An empty sequence and a `;` after the terminal cannot be
  written. A bind's left side is any string and is not checked to be a Rust
  identifier, so `Bind("", e)` and `Bind("mut x", e)` desugar as binds
  although the macro rejects `<- e;` and `mut x <- e;`.
- The side effect of `println!`: it is a statement that changes nothing. That
  a statement runs once per outer element, before the inner bind, is not
  modelled.
- Values are unbounded naturals. The Vec and Result tests annotate `u32`; the
  Option tests (src/lib.rs:81-83, 90-93, 131) use unsuffixed literals, which
  default to `i32`. Overflow of either type panics in debug and test builds and
  wraps in release builds; the model captures neither.
- Programs the Rust compiler would reject get a default meaning in
  `Semantics`: an unbound name is 0, a literal of another family is that
  family's empty value, and a `ret` annotated with another family is too. The
  lemmas do not depend on these defaults.
- The evaluators have no Option or Result literals nested inside lists, no
  `let` of a container and no name holding a container. The source's tests
  need none of these.
- Evaluation order, and evaluating each step's expression once, are not
  observable in a pure model.
- The test files tests/lib.rs, tests/list.rs, tests/option.rs and
  tests/result.rs repeat the in-file tests, apart from three cases that are
  modelled by their own lemmas: the two-level bind of tests/option.rs:12-17
  (OptionMonad.NestedBindExample), the six zeros of tests/list.rs:14-19
  (VecMonad.ThreeByTwoExample) and the sequence with `println!` of
  tests/lib.rs:24-32 (HadoExamples.VecRetSequenceWithPrintln).
