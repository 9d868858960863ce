/// The `Vec` instance of the `Monad` trait: binding applies the step function
/// to every element in order and concatenates the lists it returns.

module VecMonad {

  /** The specification of `bind`: the in-order concatenation of `f(v)` for every `v` of `t`. */
  function ConcatMap<T, O>(t: seq<T>, f: T -> seq<O>): (r: seq<O>)
    decreases |t|
  {
    if |t| == 0 then [] else f(t[0]) + ConcatMap(t[1..], f)
  }

  /** `ret`: the single-element list. */
  function Ret<T>(inner: T): (r: seq<T>)
  {
    [inner]
  }

  /** `bind` as the source runs it: start from an empty accumulator and append
      `f(v)` to it for each `v` of `t`, in order. */
  method Bind<T, O>(t: seq<T>, f: T -> seq<O>) returns (acc: seq<O>)
    ensures acc == ConcatMap(t, f)
  {
    acc := [];
    for i := 0 to |t|
      invariant acc == ConcatMap(t[..i], f)
    {
      ConcatMapSnoc(t[..i], t[i], f);
      assert t[..i + 1] == t[..i] + [t[i]];
      acc := acc + f(t[i]);
    }
    assert t[..|t|] == t;
  }

  /** The sum of the lengths of the lists `f` returns on the elements of `t`. */
  function SumLengths<T, O>(t: seq<T>, f: T -> seq<O>): (n: nat)
    decreases |t|
  {
    if |t| == 0 then 0 else |f(t[0])| + SumLengths(t[1..], f)
  }

  /** Concatenation distributes over splitting the input. */
  lemma {:induction false} ConcatMapAppend<T, O>(a: seq<T>, b: seq<T>, f: T -> seq<O>)
    ensures ConcatMap(a + b, f) == ConcatMap(a, f) + ConcatMap(b, f)
    decreases |a|
  {
    if |a| == 0 {
      assert a + b == b;
    } else {
      assert (a + b)[0] == a[0];
      assert (a + b)[1..] == a[1..] + b;
      ConcatMapAppend(a[1..], b, f);
    }
  }

  /** One more element at the end contributes its list at the end: the loop step. */
  lemma ConcatMapSnoc<T, O>(t: seq<T>, v: T, f: T -> seq<O>)
    ensures ConcatMap(t + [v], f) == ConcatMap(t, f) + f(v)
  {
    ConcatMapAppend(t, [v], f);
    assert ConcatMap([v], f) == f(v) + ConcatMap([v][1..], f);
  }

  /** An empty input gives an empty output, whatever the step is. */
  lemma ConcatMapEmpty<T, O>(f: T -> seq<O>)
    ensures ConcatMap([], f) == []
  {
  }

  /** The length of the result is the sum of the per-element lengths. */
  lemma {:induction false} ConcatMapLength<T, O>(t: seq<T>, f: T -> seq<O>)
    ensures |ConcatMap(t, f)| == SumLengths(t, f)
    decreases |t|
  {
    if |t| > 0 {
      ConcatMapLength(t[1..], f);
    }
  }

  /** Order: the list of element `i` sits, unchanged, right after the lists of
      the elements before it. */
  lemma ConcatMapBlock<T, O>(t: seq<T>, f: T -> seq<O>, i: nat)
    requires i < |t|
    ensures SumLengths(t[..i + 1], f) == SumLengths(t[..i], f) + |f(t[i])|
    ensures SumLengths(t[..i + 1], f) <= |ConcatMap(t, f)|
    ensures ConcatMap(t, f)[SumLengths(t[..i], f)..SumLengths(t[..i + 1], f)] == f(t[i])
  {
    assert t == t[..i + 1] + t[i + 1..];
    assert t[..i + 1] == t[..i] + [t[i]];
    ConcatMapAppend(t[..i + 1], t[i + 1..], f);
    ConcatMapSnoc(t[..i], t[i], f);
    ConcatMapLength(t[..i], f);
    ConcatMapLength(t[..i + 1], f);
  }

  /** A value is in the result exactly when some element's list contains it. */
  lemma {:induction false} ConcatMapMembership<T, O>(t: seq<T>, f: T -> seq<O>, y: O)
    ensures y in ConcatMap(t, f) <==> exists i :: 0 <= i < |t| && y in f(t[i])
    decreases |t|
  {
    if |t| > 0 {
      ConcatMapMembership(t[1..], f, y);
      if y in ConcatMap(t[1..], f) {
        var i :| 0 <= i < |t[1..]| && y in f(t[1..][i]);
        assert y in f(t[i + 1]);
      }
      if exists i :: 0 <= i < |t| && y in f(t[i]) {
        var i :| 0 <= i < |t| && y in f(t[i]);
        if i > 0 {
          assert y in f(t[1..][i - 1]);
        }
      }
    }
  }

  /** Bind only looks at the step on the elements of the input. */
  lemma {:induction false} ConcatMapCongruence<T, O>(t: seq<T>, f: T -> seq<O>, g: T -> seq<O>)
    requires forall i :: 0 <= i < |t| ==> f(t[i]) == g(t[i])
    ensures ConcatMap(t, f) == ConcatMap(t, g)
    decreases |t|
  {
    if |t| > 0 {
      assert f(t[0]) == g(t[0]);
      forall i | 0 <= i < |t[1..]|
        ensures f(t[1..][i]) == g(t[1..][i])
      {
        assert t[1..][i] == t[i + 1];
      }
      ConcatMapCongruence(t[1..], f, g);
    }
  }

  /** Monad law: left identity. */
  lemma LeftIdentity<T, O>(x: T, f: T -> seq<O>)
    ensures ConcatMap(Ret(x), f) == f(x)
  {
  }

  /** Monad law: right identity. */
  lemma {:induction false} RightIdentity<T>(m: seq<T>)
    ensures ConcatMap(m, Ret) == m
    decreases |m|
  {
    if |m| > 0 {
      RightIdentity(m[1..]);
    }
  }

  /** Monad law: associativity. */
  lemma {:induction false} Associativity<T, U, O>(m: seq<T>, f: T -> seq<U>, g: U -> seq<O>)
    ensures ConcatMap(ConcatMap(m, f), g) == ConcatMap(m, y => ConcatMap(f(y), g))
    decreases |m|
  {
    if |m| > 0 {
      ConcatMapAppend(f(m[0]), ConcatMap(m[1..], f), g);
      Associativity(m[1..], f, g);
    }
  }

  /** The unit tests of the source: an empty list binds to an empty list,
      `bind([0,0], _ -> [0,0])` has four zeros, and
      `bind([0,1,2], x -> [x,x]) == [0,0,1,1,2,2]`. */
  lemma SourceExamples()
    ensures ConcatMap([], (_: int) => [0, 0]) == []
    ensures ConcatMap([0, 0], (_: int) => [0, 0]) == [0, 0, 0, 0]
    ensures ConcatMap([0, 1, 2], (x: int) => [x, x]) == [0, 0, 1, 1, 2, 2]
  {
  }

  /** The three-element test: `bind([0,0,0], _ -> [0,0])` has six zeros. */
  lemma ThreeByTwoExample()
    ensures ConcatMap([0, 0, 0], (_: int) => [0, 0]) == [0, 0, 0, 0, 0, 0]
  {
  }
}
