/// The `Option` instance of the `Monad` trait: binding feeds the present
/// value, if any, to the step function; an absent value short-circuits.

module OptionMonad {

  /** An optional value: absent, or exactly one present value. */
  datatype Option<T> = None | Some(value: T)

  /** `bind`: apply `f` to the present value, or stay absent without calling `f`. */
  function Bind<T, O>(t: Option<T>, f: T -> Option<O>): (r: Option<O>)
  {
    match t
    case Some(v) => f(v)
    case None => None
  }

  /** `ret`: the minimal container, one present value. */
  function Ret<T>(inner: T): (r: Option<T>)
  {
    Some(inner)
  }

  /** A present value is fed to the step, and the step's result is the result. */
  lemma BindSome<T, O>(v: T, f: T -> Option<O>)
    ensures Bind(Some(v), f) == f(v)
  {
  }

  /** An absent value stays absent, whatever the step is: the step is not used. */
  lemma BindNone<T, O>(f: T -> Option<O>, g: T -> Option<O>)
    ensures Bind(None, f) == None
    ensures Bind(None, f) == Bind(None, g)
  {
  }

  /** `ret` holds exactly the value it was given. */
  lemma RetIsMinimal<T>(x: T)
    ensures Ret(x).Some? && Ret(x).value == x
  {
  }

  /** Bind only looks at the step on the present value. */
  lemma BindCongruence<T, O>(t: Option<T>, f: T -> Option<O>, g: T -> Option<O>)
    requires t.Some? ==> f(t.value) == g(t.value)
    ensures Bind(t, f) == Bind(t, g)
  {
  }

  /** Monad law: left identity. */
  lemma LeftIdentity<T, O>(x: T, f: T -> Option<O>)
    ensures Bind(Ret(x), f) == f(x)
  {
  }

  /** Monad law: right identity. */
  lemma RightIdentity<T>(m: Option<T>)
    ensures Bind(m, Ret) == m
  {
  }

  /** Monad law: associativity. */
  lemma Associativity<T, U, O>(m: Option<T>, f: T -> Option<U>, g: U -> Option<O>)
    ensures Bind(Bind(m, f), g) == Bind(m, y => Bind(f(y), g))
  {
  }

  /** The unit tests of the source: `bind(Some(1), x -> Some(x*0)) == Some(0)`
      and `bind(None, x -> Some(x*0)) == None`. */
  lemma SourceExamples()
    ensures Bind(Some(1), (x: int) => Some(x * 0)) == Some(0)
    ensures Bind(None, (x: int) => Some(x * 0)) == None
  {
  }

  /** The nested test: binding `Some(1)` to a step that binds `Some(2)` gives `Some(3)`. */
  lemma NestedBindExample()
    ensures Bind(Some(1), (x: int) => Bind(Some(2), (y: int) => Some(x + y))) == Some(3)
  {
  }
}
