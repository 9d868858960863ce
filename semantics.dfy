/// A small evaluator for what `hado!` emits, one per monad family, so that the
/// macro's tests can be stated as equations. Names hold naturals; a bind's
/// closure is evaluated by the family's own `bind`, a `ret` by its own `ret`.
/// Programs the Rust compiler would reject (an unbound name, a literal of
/// another family, a `ret` annotated with another family) get a default value:
/// 0 for a scalar, the family's empty value for a container.

module Semantics {
  import O = OptionMonad
  import R = ResultMonad
  import V = VecMonad
  import opened Hado

  /** The monad family a `ret(ty)` annotation names. */
  datatype Family = OptionFamily | ResultFamily | VecFamily

  /** Expressions: names, naturals, `+`, and the literals of the three families. */
  datatype Expr =
    | Var(name: string)
    | Num(n: nat)
    | Add(lhs: Expr, rhs: Expr)
    | VecOf(items: seq<Expr>)
    | SomeOf(inner: Expr)
    | NoneOf
    | OkOf(inner: Expr)
    | ErrOf(msg: string)

  /** Ordinary statements: `let name = init` and `println!(text)`. */
  datatype Stmt =
    | Let(name: string, init: Expr)
    | Println(text: string)

  type Steps = seq<Step<Expr, Stmt>>
  type Last = Terminal<Family, Expr>
  type Code = Term<Family, Expr, Stmt>
  type Env = map<string, nat>

  /** The error payload given to a program of the wrong family. */
  const IllTyped: string := "ill-typed"

  function Lookup(env: Env, x: string): (v: nat)
  {
    if x in env then env[x] else 0
  }

  function Scalar(e: Expr, env: Env): (v: nat)
  {
    match e
    case Var(x) => Lookup(env, x)
    case Num(n) => n
    case Add(a, b) => Scalar(a, env) + Scalar(b, env)
    case _ => 0
  }

  function AsVec(e: Expr, env: Env): (vs: seq<nat>)
  {
    match e
    case VecOf(items) => seq(|items|, i requires 0 <= i < |items| => Scalar(items[i], env))
    case _ => []
  }

  function AsOption(e: Expr, env: Env): (m: O.Option<nat>)
  {
    match e
    case SomeOf(x) => O.Some(Scalar(x, env))
    case _ => O.None
  }

  function AsResult(e: Expr, env: Env): (m: R.Result<nat, string>)
  {
    match e
    case OkOf(x) => R.Ok(Scalar(x, env))
    case ErrOf(m) => R.Err(m)
    case _ => R.Err(IllTyped)
  }

  /** A statement runs for its effect on the names in scope; `println!` has none here. */
  function Exec(s: Stmt, env: Env): (after: Env)
  {
    match s
    case Let(x, e) => env[x := Scalar(e, env)]
    case Println(_) => env
  }

  /** The scope of a closure body: the parameter, when there is one, bound to the value. */
  function Extend(env: Env, binder: Param, v: nat): (scope: Env)
  {
    match binder
    case Named(x) => env[x := v]
    case Wildcard => env
  }

  /** Whether a `ret` with this annotation belongs to family `f`. */
  predicate RetFits(ty: Annotation<Family>, f: Family)
  {
    ty == Inferred || ty == Annotated(f)
  }

  function EvalOption(t: Code, env: Env): (m: O.Option<nat>)
  {
    match t
    case BindCall(e, b, body) => O.Bind(AsOption(e, env), v => EvalOption(body, Extend(env, b, v)))
    case Block(s, body) => EvalOption(body, Exec(s, env))
    case RetCall(ty, e) => if RetFits(ty, OptionFamily) then O.Ret(Scalar(e, env)) else O.None
    case Raw(e) => AsOption(e, env)
  }

  function EvalResult(t: Code, env: Env): (m: R.Result<nat, string>)
  {
    match t
    case BindCall(e, b, body) => R.Bind(AsResult(e, env), v => EvalResult(body, Extend(env, b, v)))
    case Block(s, body) => EvalResult(body, Exec(s, env))
    case RetCall(ty, e) => if RetFits(ty, ResultFamily) then R.Ret(Scalar(e, env)) else R.Err(IllTyped)
    case Raw(e) => AsResult(e, env)
  }

  function EvalVec(t: Code, env: Env): (vs: seq<nat>)
  {
    match t
    case BindCall(e, b, body) => V.ConcatMap(AsVec(e, env), v => EvalVec(body, Extend(env, b, v)))
    case Block(s, body) => EvalVec(body, Exec(s, env))
    case RetCall(ty, e) => if RetFits(ty, VecFamily) then V.Ret(Scalar(e, env)) else []
    case Raw(e) => AsVec(e, env)
  }

  /** Splitting off the first step of `pre + mid + post`. */
  lemma SplitFirst(pre: Steps, mid: Steps, post: Steps)
    requires |pre| > 0
    ensures (pre + mid + post)[0] == pre[0]
    ensures (pre + mid + post)[1..] == pre[1..] + mid + post
    ensures (pre + post)[0] == pre[0]
    ensures (pre + post)[1..] == pre[1..] + post
  {
  }

  // ---------------------------------------------------------------------
  // A statement that binds nothing changes no result.

  /** Option family: inserting `println!` anywhere among the steps leaves the result alone. */
  lemma {:induction false} PrintlnNeutralOption(pre: Steps, msg: string, post: Steps, last: Last, env: Env)
    ensures EvalOption(Desugar(pre + [Stmt(Println(msg))] + post, last), env)
         == EvalOption(Desugar(pre + post, last), env)
    decreases |pre|
  {
    var p: Steps := [Stmt(Println(msg))];
    if |pre| == 0 {
      assert pre + p + post == p + post && pre + post == post;
      DesugarStatement(Println(msg), post, last);
    } else {
      SplitFirst(pre, p, post);
      match pre[0]
      case Bind(x, e) =>
        var b := Binder(x);
        var f := v => EvalOption(Desugar(pre[1..] + p + post, last), Extend(env, b, v));
        var g := v => EvalOption(Desugar(pre[1..] + post, last), Extend(env, b, v));
        var m := AsOption(e, env);
        if m.Some? {
          PrintlnNeutralOption(pre[1..], msg, post, last, Extend(env, b, m.value));
        }
        O.BindCongruence(m, f, g);
      case Stmt(s) =>
        PrintlnNeutralOption(pre[1..], msg, post, last, Exec(s, env));
    }
  }

  /** Result family: inserting `println!` anywhere among the steps leaves the result alone. */
  lemma {:induction false} PrintlnNeutralResult(pre: Steps, msg: string, post: Steps, last: Last, env: Env)
    ensures EvalResult(Desugar(pre + [Stmt(Println(msg))] + post, last), env)
         == EvalResult(Desugar(pre + post, last), env)
    decreases |pre|
  {
    var p: Steps := [Stmt(Println(msg))];
    if |pre| == 0 {
      assert pre + p + post == p + post && pre + post == post;
      DesugarStatement(Println(msg), post, last);
    } else {
      SplitFirst(pre, p, post);
      match pre[0]
      case Bind(x, e) =>
        var b := Binder(x);
        var f := v => EvalResult(Desugar(pre[1..] + p + post, last), Extend(env, b, v));
        var g := v => EvalResult(Desugar(pre[1..] + post, last), Extend(env, b, v));
        var m := AsResult(e, env);
        if m.Ok? {
          PrintlnNeutralResult(pre[1..], msg, post, last, Extend(env, b, m.value));
        }
        R.BindCongruence(m, f, g);
      case Stmt(s) =>
        PrintlnNeutralResult(pre[1..], msg, post, last, Exec(s, env));
    }
  }

  /** Vec family: inserting `println!` anywhere among the steps leaves the result alone. */
  lemma {:induction false} PrintlnNeutralVec(pre: Steps, msg: string, post: Steps, last: Last, env: Env)
    ensures EvalVec(Desugar(pre + [Stmt(Println(msg))] + post, last), env)
         == EvalVec(Desugar(pre + post, last), env)
    decreases |pre|
  {
    var p: Steps := [Stmt(Println(msg))];
    if |pre| == 0 {
      assert pre + p + post == p + post && pre + post == post;
      DesugarStatement(Println(msg), post, last);
    } else {
      SplitFirst(pre, p, post);
      match pre[0]
      case Bind(x, e) =>
        var b := Binder(x);
        var f := v => EvalVec(Desugar(pre[1..] + p + post, last), Extend(env, b, v));
        var g := v => EvalVec(Desugar(pre[1..] + post, last), Extend(env, b, v));
        var m := AsVec(e, env);
        forall i | 0 <= i < |m|
          ensures f(m[i]) == g(m[i])
        {
          PrintlnNeutralVec(pre[1..], msg, post, last, Extend(env, b, m[i]));
        }
        V.ConcatMapCongruence(m, f, g);
      case Stmt(s) =>
        PrintlnNeutralVec(pre[1..], msg, post, last, Exec(s, env));
    }
  }

  // ---------------------------------------------------------------------
  // `x <- e; ret x` is `e`: the annotated-return and bare-tail forms agree.

  /** Option family: ending with `x <- e; ret x` is the same as ending with `e`. */
  lemma {:induction false} RetOfBoundNameOption(pre: Steps, x: string, e: Expr, ty: Annotation<Family>, env: Env)
    requires x != Ignore
    requires RetFits(ty, OptionFamily)
    ensures EvalOption(Desugar(pre + [Bind(x, e)], Ret(ty, Var(x))), env)
         == EvalOption(Desugar(pre, Tail(e)), env)
    decreases |pre|
  {
    var q: Steps := [Bind(x, e)];
    if |pre| == 0 {
      var none: Steps := [];
      assert pre + q == q + none;
      DesugarNamedBind(x, e, none, Ret(ty, Var(x)));
      var m := AsOption(e, env);
      O.BindCongruence(m, v => EvalOption(RetCall(ty, Var(x)), Extend(env, Named(x), v)), O.Ret);
      O.RightIdentity(m);
    } else {
      SplitFirst(pre, q, []);
      assert pre + q + [] == pre + q && pre[1..] + q + [] == pre[1..] + q && pre + [] == pre;
      match pre[0]
      case Bind(y, d) =>
        var b := Binder(y);
        var f := v => EvalOption(Desugar(pre[1..] + q, Ret(ty, Var(x))), Extend(env, b, v));
        var g := v => EvalOption(Desugar(pre[1..], Tail(e)), Extend(env, b, v));
        var m := AsOption(d, env);
        if m.Some? {
          RetOfBoundNameOption(pre[1..], x, e, ty, Extend(env, b, m.value));
        }
        O.BindCongruence(m, f, g);
      case Stmt(s) =>
        RetOfBoundNameOption(pre[1..], x, e, ty, Exec(s, env));
    }
  }

  /** Result family: ending with `x <- e; ret x` is the same as ending with `e`. */
  lemma {:induction false} RetOfBoundNameResult(pre: Steps, x: string, e: Expr, ty: Annotation<Family>, env: Env)
    requires x != Ignore
    requires RetFits(ty, ResultFamily)
    ensures EvalResult(Desugar(pre + [Bind(x, e)], Ret(ty, Var(x))), env)
         == EvalResult(Desugar(pre, Tail(e)), env)
    decreases |pre|
  {
    var q: Steps := [Bind(x, e)];
    if |pre| == 0 {
      var none: Steps := [];
      assert pre + q == q + none;
      DesugarNamedBind(x, e, none, Ret(ty, Var(x)));
      var m := AsResult(e, env);
      R.BindCongruence(m, v => EvalResult(RetCall(ty, Var(x)), Extend(env, Named(x), v)), R.Ret);
      R.RightIdentity(m);
    } else {
      SplitFirst(pre, q, []);
      assert pre + q + [] == pre + q && pre[1..] + q + [] == pre[1..] + q && pre + [] == pre;
      match pre[0]
      case Bind(y, d) =>
        var b := Binder(y);
        var f := v => EvalResult(Desugar(pre[1..] + q, Ret(ty, Var(x))), Extend(env, b, v));
        var g := v => EvalResult(Desugar(pre[1..], Tail(e)), Extend(env, b, v));
        var m := AsResult(d, env);
        if m.Ok? {
          RetOfBoundNameResult(pre[1..], x, e, ty, Extend(env, b, m.value));
        }
        R.BindCongruence(m, f, g);
      case Stmt(s) =>
        RetOfBoundNameResult(pre[1..], x, e, ty, Exec(s, env));
    }
  }

  /** Vec family: ending with `x <- e; ret x` is the same as ending with `e`. */
  lemma {:induction false} RetOfBoundNameVec(pre: Steps, x: string, e: Expr, ty: Annotation<Family>, env: Env)
    requires x != Ignore
    requires RetFits(ty, VecFamily)
    ensures EvalVec(Desugar(pre + [Bind(x, e)], Ret(ty, Var(x))), env)
         == EvalVec(Desugar(pre, Tail(e)), env)
    decreases |pre|
  {
    var q: Steps := [Bind(x, e)];
    if |pre| == 0 {
      var none: Steps := [];
      assert pre + q == q + none;
      DesugarNamedBind(x, e, none, Ret(ty, Var(x)));
      var m := AsVec(e, env);
      V.ConcatMapCongruence(m, v => EvalVec(RetCall(ty, Var(x)), Extend(env, Named(x), v)), V.Ret);
      V.RightIdentity(m);
    } else {
      SplitFirst(pre, q, []);
      assert pre + q + [] == pre + q && pre[1..] + q + [] == pre[1..] + q && pre + [] == pre;
      match pre[0]
      case Bind(y, d) =>
        var b := Binder(y);
        var f := v => EvalVec(Desugar(pre[1..] + q, Ret(ty, Var(x))), Extend(env, b, v));
        var g := v => EvalVec(Desugar(pre[1..], Tail(e)), Extend(env, b, v));
        var m := AsVec(d, env);
        forall i | 0 <= i < |m|
          ensures f(m[i]) == g(m[i])
        {
          RetOfBoundNameVec(pre[1..], x, e, ty, Extend(env, b, m[i]));
        }
        V.ConcatMapCongruence(m, f, g);
      case Stmt(s) =>
        RetOfBoundNameVec(pre[1..], x, e, ty, Exec(s, env));
    }
  }

  // ---------------------------------------------------------------------
  // Short-circuiting and ignored binds.

  /** The steps `s1; ...; sn;` for the statements `ss`. */
  function Statements(ss: seq<Stmt>): (steps: Steps)
    ensures |steps| == |ss|
    ensures forall i :: 0 <= i < |ss| ==> steps[i] == Stmt(ss[i])
  {
    seq(|ss|, i requires 0 <= i < |ss| => Stmt(ss[i]))
  }

  /** The scope after running the statements `ss` in order. */
  function ExecAll(ss: seq<Stmt>, env: Env): (after: Env)
    decreases |ss|
  {
    if |ss| == 0 then env else ExecAll(ss[1..], Exec(ss[0], env))
  }

  /** Splitting off the first of a run of statements. */
  lemma StatementsFirst(ss: seq<Stmt>, tail: Steps)
    requires |ss| > 0
    ensures Statements(ss) + tail == [Stmt(ss[0])] + (Statements(ss[1..]) + tail)
  {
    assert Statements(ss) == [Stmt(ss[0])] + Statements(ss[1..]);
  }

  /** Option family: leading statements run first, in order, and then the rest
      runs in the scope they leave. */
  lemma {:induction false} StatementsRunFirstOption(ss: seq<Stmt>, tail: Steps, last: Last, env: Env)
    ensures EvalOption(Desugar(Statements(ss) + tail, last), env)
         == EvalOption(Desugar(tail, last), ExecAll(ss, env))
    decreases |ss|
  {
    if |ss| == 0 {
      assert Statements(ss) + tail == tail;
    } else {
      StatementsFirst(ss, tail);
      DesugarStatement(ss[0], Statements(ss[1..]) + tail, last);
      StatementsRunFirstOption(ss[1..], tail, last, Exec(ss[0], env));
    }
  }

  /** Result family: leading statements run first, in order, and then the rest
      runs in the scope they leave. */
  lemma {:induction false} StatementsRunFirstResult(ss: seq<Stmt>, tail: Steps, last: Last, env: Env)
    ensures EvalResult(Desugar(Statements(ss) + tail, last), env)
         == EvalResult(Desugar(tail, last), ExecAll(ss, env))
    decreases |ss|
  {
    if |ss| == 0 {
      assert Statements(ss) + tail == tail;
    } else {
      StatementsFirst(ss, tail);
      DesugarStatement(ss[0], Statements(ss[1..]) + tail, last);
      StatementsRunFirstResult(ss[1..], tail, last, Exec(ss[0], env));
    }
  }

  /** Vec family: leading statements run first, in order, and then the rest
      runs in the scope they leave. */
  lemma {:induction false} StatementsRunFirstVec(ss: seq<Stmt>, tail: Steps, last: Last, env: Env)
    ensures EvalVec(Desugar(Statements(ss) + tail, last), env)
         == EvalVec(Desugar(tail, last), ExecAll(ss, env))
    decreases |ss|
  {
    if |ss| == 0 {
      assert Statements(ss) + tail == tail;
    } else {
      StatementsFirst(ss, tail);
      DesugarStatement(ss[0], Statements(ss[1..]) + tail, last);
      StatementsRunFirstVec(ss[1..], tail, last, Exec(ss[0], env));
    }
  }

  /** Option family: after any leading statements, a bind on an absent value
      makes the whole sequence absent, whatever follows it. */
  lemma AbsentBindOption(ss: seq<Stmt>, x: string, e: Expr, rest: Steps, last: Last, rest': Steps, last': Last, env: Env)
    requires AsOption(e, ExecAll(ss, env)) == O.None
    ensures EvalOption(Desugar(Statements(ss) + ([Bind(x, e)] + rest), last), env) == O.None
    ensures EvalOption(Desugar(Statements(ss) + ([Bind(x, e)] + rest), last), env)
         == EvalOption(Desugar(Statements(ss) + ([Bind(x, e)] + rest'), last'), env)
  {
    StatementsRunFirstOption(ss, [Bind(x, e)] + rest, last, env);
    StatementsRunFirstOption(ss, [Bind(x, e)] + rest', last', env);
  }

  /** Result family: after any leading statements, a bind on an error makes
      the whole sequence fail with that same error, whatever follows it. */
  lemma FailedBindResult(ss: seq<Stmt>, x: string, e: Expr, rest: Steps, last: Last, rest': Steps, last': Last, env: Env)
    requires AsResult(e, ExecAll(ss, env)).Err?
    ensures EvalResult(Desugar(Statements(ss) + ([Bind(x, e)] + rest), last), env)
         == R.Err(AsResult(e, ExecAll(ss, env)).error)
    ensures EvalResult(Desugar(Statements(ss) + ([Bind(x, e)] + rest), last), env)
         == EvalResult(Desugar(Statements(ss) + ([Bind(x, e)] + rest'), last'), env)
  {
    StatementsRunFirstResult(ss, [Bind(x, e)] + rest, last, env);
    StatementsRunFirstResult(ss, [Bind(x, e)] + rest', last', env);
  }

  /** Vec family: after any leading statements, a bind on an empty list gives
      an empty result, whatever follows it. */
  lemma EmptyBindVec(ss: seq<Stmt>, x: string, e: Expr, rest: Steps, last: Last, rest': Steps, last': Last, env: Env)
    requires AsVec(e, ExecAll(ss, env)) == []
    ensures EvalVec(Desugar(Statements(ss) + ([Bind(x, e)] + rest), last), env) == []
    ensures EvalVec(Desugar(Statements(ss) + ([Bind(x, e)] + rest), last), env)
         == EvalVec(Desugar(Statements(ss) + ([Bind(x, e)] + rest'), last'), env)
  {
    StatementsRunFirstVec(ss, [Bind(x, e)] + rest, last, env);
    StatementsRunFirstVec(ss, [Bind(x, e)] + rest', last', env);
  }

  /** Option family: `ign <- e; rest` is `bind(e, _ -> rest)` with the scope unchanged. */
  lemma IgnoredBindOption(e: Expr, rest: Steps, last: Last, env: Env)
    ensures EvalOption(Desugar([Bind(Ignore, e)] + rest, last), env)
         == O.Bind(AsOption(e, env), _ => EvalOption(Desugar(rest, last), env))
  {
  }

  /** Result family: `ign <- e; rest` is `bind(e, _ -> rest)` with the scope unchanged. */
  lemma IgnoredBindResult(e: Expr, rest: Steps, last: Last, env: Env)
    ensures EvalResult(Desugar([Bind(Ignore, e)] + rest, last), env)
         == R.Bind(AsResult(e, env), _ => EvalResult(Desugar(rest, last), env))
  {
  }

  /** Vec family: `ign <- e; rest` is `bind(e, _ -> rest)` with the scope
      unchanged: the rest's result once per element of `e`. */
  lemma IgnoredBindVec(e: Expr, rest: Steps, last: Last, env: Env)
    ensures EvalVec(Desugar([Bind(Ignore, e)] + rest, last), env)
         == V.ConcatMap(AsVec(e, env), _ => EvalVec(Desugar(rest, last), env))
  {
    DesugarIgnoredBind(e, rest, last);
    var body := Desugar(rest, last);
    V.ConcatMapCongruence(AsVec(e, env), v => EvalVec(body, Extend(env, Wildcard, v)), _ => EvalVec(body, env));
  }
}
