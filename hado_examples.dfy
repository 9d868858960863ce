/// The `hado!` tests of the source, as equations between evaluated sequences.

module HadoExamples {
  import O = OptionMonad
  import V = VecMonad
  import opened Hado
  import opened Semantics

  /** `x <- Some(1); y <- Some(2); Some(x + y)`, with and without a
      `println!` between the binds, is `Some(3)`. */
  lemma OptionSequences(env: Env)
    ensures EvalOption(Desugar([Bind("x", SomeOf(Num(1))), Bind("y", SomeOf(Num(2)))],
                               Tail(SomeOf(Add(Var("x"), Var("y"))))), env) == O.Some(3)
    ensures EvalOption(Desugar([Bind("x", SomeOf(Num(1))), Stmt(Println("yey")), Bind("y", SomeOf(Num(2)))],
                               Tail(SomeOf(Add(Var("x"), Var("y"))))), env) == O.Some(3)
  {
    var last: Last := Tail(SomeOf(Add(Var("x"), Var("y"))));
    var bx: Steps := [Bind("x", SomeOf(Num(1)))];
    var bY: Steps := [Bind("y", SomeOf(Num(2)))];
    var none: Steps := [];
    DesugarNamedBind("y", SomeOf(Num(2)), none, last);
    assert bY == bY + none;
    DesugarNamedBind("x", SomeOf(Num(1)), bY, last);
    var inner := Desugar(bY, last);
    var env1 := env["x" := 1];
    assert EvalOption(inner, env1) == O.Some(3) by {
      var env2 := env1["y" := 2];
      assert Lookup(env2, "x") == 1 && Lookup(env2, "y") == 2;
      assert inner == BindCall(SomeOf(Num(2)), Named("y"), Raw(SomeOf(Add(Var("x"), Var("y")))));
      assert Scalar(Add(Var("x"), Var("y")), env2) == 3;
      assert EvalOption(inner, env1) == EvalOption(Raw(SomeOf(Add(Var("x"), Var("y")))), env2);
    }
    assert bx + bY == [Bind("x", SomeOf(Num(1))), Bind("y", SomeOf(Num(2)))];
    PrintlnNeutralOption(bx, "yey", bY, last, env);
    assert bx + [Stmt(Println("yey"))] + bY
        == [Bind("x", SomeOf(Num(1))), Stmt(Println("yey")), Bind("y", SomeOf(Num(2)))];
  }

  /** Binding `[0, 1, 2]` concatenates the step's lists for 0, 1 and 2, in that order. */
  lemma BindZeroOneTwo(f: nat -> seq<nat>)
    ensures V.ConcatMap<nat, nat>([0, 1, 2], f) == f(0) + f(1) + f(2)
  {
  }

  /** The elements of `vec![a, a]` when `a` is bound to `v`. */
  lemma PairOfBoundName(v: nat, env: Env)
    ensures AsVec(VecOf([Var("a"), Var("a")]), env["a" := v]) == [v, v]
  {
  }

  /** `a <- vec![0, 1, 2]; vec![a, a]` is `[0, 0, 1, 1, 2, 2]`. */
  lemma VecTailSequence(env: Env)
    ensures EvalVec(Desugar([Bind("a", VecOf([Num(0), Num(1), Num(2)]))], Tail(VecOf([Var("a"), Var("a")]))), env)
         == [0, 0, 1, 1, 2, 2]
  {
    var pair := VecOf([Var("a"), Var("a")]);
    var ba: Steps := [Bind("a", VecOf([Num(0), Num(1), Num(2)]))];
    var none: Steps := [];
    var tail: Last := Tail(pair);
    DesugarNamedBind("a", VecOf([Num(0), Num(1), Num(2)]), none, tail);
    assert ba == ba + none;
    assert AsVec(VecOf([Num(0), Num(1), Num(2)]), env) == [0, 1, 2];
    var f := (v: nat) => EvalVec(Raw(pair), Extend(env, Named("a"), v));
    PairOfBoundName(0, env);
    PairOfBoundName(1, env);
    PairOfBoundName(2, env);
    BindZeroOneTwo(f);
  }

  /** `a <- vec![0, 1, 2]; b <- vec![a, a]; ret(Vec<u32>) b` equals
      `a <- vec![0, 1, 2]; vec![a, a]`, so it is `[0, 0, 1, 1, 2, 2]`. */
  lemma VecRetSequence(env: Env)
    ensures EvalVec(Desugar([Bind("a", VecOf([Num(0), Num(1), Num(2)])), Bind("b", VecOf([Var("a"), Var("a")]))],
                            Ret(Annotated(VecFamily), Var("b"))), env)
         == EvalVec(Desugar([Bind("a", VecOf([Num(0), Num(1), Num(2)]))], Tail(VecOf([Var("a"), Var("a")]))), env)
    ensures EvalVec(Desugar([Bind("a", VecOf([Num(0), Num(1), Num(2)])), Bind("b", VecOf([Var("a"), Var("a")]))],
                            Ret(Annotated(VecFamily), Var("b"))), env) == [0, 0, 1, 1, 2, 2]
  {
    var ba: Steps := [Bind("a", VecOf([Num(0), Num(1), Num(2)]))];
    RetOfBoundNameVec(ba, "b", VecOf([Var("a"), Var("a")]), Annotated(VecFamily), env);
    assert ba + [Bind("b", VecOf([Var("a"), Var("a")]))]
        == [Bind("a", VecOf([Num(0), Num(1), Num(2)])), Bind("b", VecOf([Var("a"), Var("a")]))];
    VecTailSequence(env);
  }

  /** With a `println!` after the first bind, the sequence is still `[0, 0, 1, 1, 2, 2]`. */
  lemma VecRetSequenceWithPrintln(env: Env)
    ensures EvalVec(Desugar([Bind("a", VecOf([Num(0), Num(1), Num(2)])), Stmt(Println("a")),
                             Bind("b", VecOf([Var("a"), Var("a")]))],
                            Ret(Annotated(VecFamily), Var("b"))), env) == [0, 0, 1, 1, 2, 2]
  {
    var ba: Steps := [Bind("a", VecOf([Num(0), Num(1), Num(2)]))];
    var bb: Steps := [Bind("b", VecOf([Var("a"), Var("a")]))];
    var last: Last := Ret(Annotated(VecFamily), Var("b"));
    PrintlnNeutralVec(ba, "a", bb, last, env);
    assert ba + [Stmt(Println("a"))] + bb
        == [Bind("a", VecOf([Num(0), Num(1), Num(2)])), Stmt(Println("a")), Bind("b", VecOf([Var("a"), Var("a")]))];
    assert ba + bb == [Bind("a", VecOf([Num(0), Num(1), Num(2)])), Bind("b", VecOf([Var("a"), Var("a")]))];
    VecRetSequence(env);
  }

  /** `ign <- vec![0, 1, 2]; let b = 7; ret(Vec<u32>) b` and
      `ign <- vec![0, 1, 2]; vec![7]` are both `[7, 7, 7]`. */
  lemma IgnoredVecSequences(env: Env)
    ensures EvalVec(Desugar([Bind(Ignore, VecOf([Num(0), Num(1), Num(2)])), Stmt(Let("b", Num(7)))],
                            Ret(Annotated(VecFamily), Var("b"))), env) == [7, 7, 7]
    ensures EvalVec(Desugar([Bind(Ignore, VecOf([Num(0), Num(1), Num(2)]))], Tail(VecOf([Num(7)]))), env)
         == [7, 7, 7]
  {
    var e := VecOf([Num(0), Num(1), Num(2)]);
    var none: Steps := [];
    var letB: Steps := [Stmt(Let("b", Num(7)))];
    var last: Last := Ret(Annotated(VecFamily), Var("b"));
    assert AsVec(e, env) == [0, 1, 2];
    // The `let` form.
    IgnoredBindVec(e, letB, last, env);
    DesugarStatement(Let("b", Num(7)), none, last);
    assert letB == letB + none;
    assert EvalVec(Desugar(letB, last), env) == EvalVec(RetCall(Annotated(VecFamily), Var("b")), env["b" := 7]);
    assert EvalVec(Desugar(letB, last), env) == [7];
    BindZeroOneTwo((_: nat) => EvalVec(Desugar(letB, last), env));
    // The bare-tail form.
    var tail: Last := Tail(VecOf([Num(7)]));
    IgnoredBindVec(e, none, tail, env);
    assert AsVec(VecOf([Num(7)]), env) == [7];
    BindZeroOneTwo((_: nat) => EvalVec(Desugar(none, tail), env));
    assert [Bind(Ignore, e)] + letB == [Bind(Ignore, e), Stmt(Let("b", Num(7)))];
    assert [Bind(Ignore, e)] + none == [Bind(Ignore, e)];
  }
}
