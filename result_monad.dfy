/// The `Result` instance of the `Monad` trait: binding feeds a success value
/// to the step function; an error short-circuits with its own payload.

module ResultMonad {

  /** A success carrying a value, or a failure carrying an error payload. */
  datatype Result<T, E> = Ok(value: T) | Err(error: E)

  /** `bind`: apply `f` to a success value, or pass the error on unchanged
      without calling `f`. */
  function Bind<T, O, E>(t: Result<T, E>, f: T -> Result<O, E>): (r: Result<O, E>)
  {
    match t
    case Ok(v) => f(v)
    case Err(e) => Err(e)
  }

  /** `ret`: a success holding the value, no error. */
  function Ret<T, E>(inner: T): (r: Result<T, E>)
  {
    Ok(inner)
  }

  /** A success value is fed to the step, and the step's result is the result. */
  lemma BindOk<T, O, E>(v: T, f: T -> Result<O, E>)
    ensures Bind(Ok(v), f) == f(v)
  {
  }

  /** An error is returned with the identical payload, whatever the step is. */
  lemma BindErr<T, O, E>(e: E, f: T -> Result<O, E>, g: T -> Result<O, E>)
    ensures Bind(Err(e), f) == Err(e)
    ensures Bind(Err(e), f) == Bind(Err(e), g)
  {
  }

  /** Bind fails exactly when the input failed or the step failed on its value,
      and an error always comes from one of the two. */
  lemma BindFailure<T, O, E>(t: Result<T, E>, f: T -> Result<O, E>)
    ensures Bind(t, f).Err? <==> t.Err? || f(t.value).Err?
    ensures Bind(t, f).Err? ==> Bind(t, f).error == (if t.Err? then t.error else f(t.value).error)
  {
  }

  /** `ret` is a success holding exactly the value it was given. */
  lemma RetIsMinimal<T, E>(x: T)
    ensures Ret<T, E>(x).Ok? && Ret<T, E>(x).value == x
  {
  }

  /** Bind only looks at the step on the success value. */
  lemma BindCongruence<T, O, E>(t: Result<T, E>, f: T -> Result<O, E>, g: T -> Result<O, E>)
    requires t.Ok? ==> f(t.value) == g(t.value)
    ensures Bind(t, f) == Bind(t, g)
  {
  }

  /** Monad law: left identity. */
  lemma LeftIdentity<T, O, E>(x: T, f: T -> Result<O, E>)
    ensures Bind(Ret(x), f) == f(x)
  {
  }

  /** Monad law: right identity. */
  lemma RightIdentity<T, E>(m: Result<T, E>)
    ensures Bind(m, Ret) == m
  {
  }

  /** Monad law: associativity. */
  lemma Associativity<T, U, O, E>(m: Result<T, E>, f: T -> Result<U, E>, g: U -> Result<O, E>)
    ensures Bind(Bind(m, f), g) == Bind(m, y => Bind(f(y), g))
  {
  }

  /** The unit tests of the source: `bind(Ok(1), x -> Ok(x*0)) == Ok(0)` and
      `bind(Err("failed"), x -> Ok(x*0)) == Err("failed")`. */
  lemma SourceExamples()
    ensures Bind(Ok(1), (x: int) => Ok(x * 0)) == Result<int, string>.Ok(0)
    ensures Bind(Err("failed"), (x: int) => Ok(x * 0)) == Result<int, string>.Err("failed")
  {
  }
}
