/// The `hado!` macro: a priority-ordered rewrite of a sequence of binding
/// steps, ending in one terminal, into nested `bind` calls. The rewrite is
/// purely syntactic: it is generic in the syntax of types `Ty`, expressions
/// `E` and statements `S`, and never looks at which monad is in use.

module Hado {
  /** The binder the macro reserves for a bind whose value is discarded. Its
      rule is tried before the rule for an arbitrary identifier, so
      `ign <- e` never introduces a name `ign`. */
  const Ignore: string := "ign"

  /** A closure parameter: the wildcard `|_|` or a name `|x|`. */
  datatype Param = Wildcard | Named(name: string)

  /** A `ret` call's type: left to inference (`ret e`) or written out (`ret(ty) e`). */
  datatype Annotation<Ty> = Inferred | Annotated(ty: Ty)

  /** A step before the terminal, as parsed: `lhs <- rhs;` or `stmt;`. */
  datatype Step<E, S> =
    | Bind(lhs: string, rhs: E)
    | Stmt(stmt: S)

  /** The terminal of a sequence: `ret(ty) e`, `ret e` (no type) or a bare expression. */
  datatype Terminal<Ty, E> =
    | Ret(ty: Annotation<Ty>, value: E)
    | Tail(expr: E)

  /** The emitted expression: `Monad::bind(arg, |binder| body)` (the binder is
      `_` for the wildcard), a block `{ stmt; body }`, `Monad::<ty>::ret(value)`,
      or an expression passed through unchanged. */
  datatype Term<Ty, E, S> =
    | BindCall(arg: E, binder: Param, body: Term<Ty, E, S>)
    | Block(stmt: S, body: Term<Ty, E, S>)
    | RetCall(ty: Annotation<Ty>, value: E)
    | Raw(expr: E)

  /** The closure parameter a bind step gets: the wildcard for `ign`, its name otherwise. */
  function Binder(lhs: string): (p: Param)
  {
    if lhs == Ignore then Wildcard else Named(lhs)
  }

  /** The macro: one rule application per step, recursing on the remaining steps. */
  function Desugar<Ty, E, S>(steps: seq<Step<E, S>>, last: Terminal<Ty, E>): (t: Term<Ty, E, S>)
    decreases |steps|
  {
    if |steps| == 0 then
      match last
      case Ret(ty, e) => RetCall(ty, e)
      case Tail(e) => Raw(e)
    else
      var body := Desugar(steps[1..], last);
      match steps[0]
      case Bind(lhs, e) => BindCall(e, Binder(lhs), body)
      case Stmt(s) => Block(s, body)
  }

  /** The left side a closure parameter came from: `ign` for the wildcard. */
  function LhsOf(binder: Param): (lhs: string)
  {
    match binder
    case Named(x) => x
    case Wildcard => Ignore
  }

  /** Reads an emitted expression back as the steps and terminal it was written as. */
  function Resugar<Ty, E, S>(t: Term<Ty, E, S>): (parsed: (seq<Step<E, S>>, Terminal<Ty, E>))
  {
    match t
    case BindCall(e, b, body) =>
      var (steps, last) := Resugar(body);
      ([Bind(LhsOf(b), e)] + steps, last)
    case Block(s, body) =>
      var (steps, last) := Resugar(body);
      ([Stmt(s)] + steps, last)
    case RetCall(ty, e) => ([], Ret(ty, e))
    case Raw(e) => ([], Tail(e))
  }

  /** An expression the macro can emit: no closure parameter is spelled `ign`. */
  predicate Emittable<Ty, E, S>(t: Term<Ty, E, S>)
  {
    match t
    case BindCall(_, b, body) => b != Named(Ignore) && Emittable(body)
    case Block(_, body) => Emittable(body)
    case RetCall(_, _) => true
    case Raw(_) => true
  }

  /** Rules 1 and 2 and the base case: a lone terminal becomes a `ret` call
      (keeping its type annotation, or its absence) or is emitted unchanged. */
  lemma DesugarTerminal<Ty, E, S>(last: Terminal<Ty, E>)
    ensures last.Ret? ==> Desugar<Ty, E, S>([], last) == RetCall(last.ty, last.value)
    ensures last.Tail? ==> Desugar<Ty, E, S>([], last) == Raw(last.expr)
  {
  }

  /** Rule 3, tried before rule 4: `ign <- e; rest` binds `e` to a closure
      that ignores its argument. */
  lemma DesugarIgnoredBind<Ty, E, S>(e: E, rest: seq<Step<E, S>>, last: Terminal<Ty, E>)
    ensures Desugar([Bind(Ignore, e)] + rest, last) == BindCall(e, Wildcard, Desugar(rest, last))
  {
  }

  /** Rule 4: `x <- e; rest` binds `e` to a closure with parameter `x`. */
  lemma DesugarNamedBind<Ty, E, S>(x: string, e: E, rest: seq<Step<E, S>>, last: Terminal<Ty, E>)
    requires x != Ignore
    ensures Desugar([Bind(x, e)] + rest, last) == BindCall(e, Named(x), Desugar(rest, last))
  {
  }

  /** Rule 5: `stmt; rest` becomes the block `{ stmt; rest }`, the statement first. */
  lemma DesugarStatement<Ty, E, S>(s: S, rest: seq<Step<E, S>>, last: Terminal<Ty, E>)
    ensures Desugar([Stmt(s)] + rest, last) == Block(s, Desugar(rest, last))
  {
  }

  /** Nothing is lost, added or reordered: the emitted expression reads back
      as exactly the steps and terminal it came from. */
  lemma {:induction false} DesugarResugar<Ty, E, S>(steps: seq<Step<E, S>>, last: Terminal<Ty, E>)
    ensures Resugar(Desugar(steps, last)) == (steps, last)
    decreases |steps|
  {
    if |steps| > 0 {
      DesugarResugar(steps[1..], last);
      assert [steps[0]] + steps[1..] == steps;
    }
  }

  /** The macro never emits a closure parameter named `ign`. */
  lemma {:induction false} DesugarEmittable<Ty, E, S>(steps: seq<Step<E, S>>, last: Terminal<Ty, E>)
    ensures Emittable(Desugar(steps, last))
    decreases |steps|
  {
    if |steps| > 0 {
      DesugarEmittable(steps[1..], last);
    }
  }

  /** Every expression the macro can emit is emitted for the steps it reads back as. */
  lemma {:induction false} ResugarDesugar<Ty, E, S>(t: Term<Ty, E, S>)
    requires Emittable(t)
    ensures Desugar(Resugar(t).0, Resugar(t).1) == t
  {
    match t
    case BindCall(e, b, body) =>
      ResugarDesugar(body);
      var (steps, last) := Resugar(body);
      assert ([Bind(LhsOf(b), e)] + steps)[1..] == steps;
    case Block(s, body) =>
      ResugarDesugar(body);
      var (steps, last) := Resugar(body);
      assert ([Stmt(s)] + steps)[1..] == steps;
    case RetCall(_, _) =>
    case Raw(_) =>
  }
}
