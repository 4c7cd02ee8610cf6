/** Failure-carrying values shared by every module of the model.

    The converter signals failure with Python exceptions; the model returns
    them as values.  Each kind names the exception the source would raise. */
module Results {

  datatype Option<+T> = None | Some(value: T)

  /** The exception kinds the modelled code can raise. */
  datatype Error =
    | KeyError           // dictionary or column lookup of a missing key
    | ValueError         // int() of a non-number, an unknown direction, a bad date
    | TypeError          // int() or strptime() of a missing value
    | IndexError         // indexing past the end of a list or an empty selection
    | AttributeError     // a missing or repeated document element
    | AssertionError     // a failed `assert`
    | ZeroDivisionError  // division by zero in the batch size
    | UnboundLocalError  // a local variable read before any assignment

  datatype Result<+T> = Ok(value: T) | Err(error: Error) {
    predicate IsFailure() { Err? }

    function PropagateFailure<U>(): Result<U>
      requires Err?
    {
      Err(error)
    }

    function Extract(): T
      requires Ok?
    {
      value
    }
  }

  /** A result that starts with the rows already produced: an error stays an
      error, rows are appended after `done`. */
  function Prepend<T>(done: seq<T>, rest: Result<seq<T>>): Result<seq<T>> {
    match rest
    case Err(e) => Err(e)
    case Ok(t) => Ok(done + t)
  }

  lemma PrependNothing<T>(rest: Result<seq<T>>)
    ensures Prepend([], rest) == rest
  {
    match rest
    case Err(_) =>
    case Ok(t) => assert [] + t == t;
  }

  lemma PrependTwice<T>(a: seq<T>, b: seq<T>, rest: Result<seq<T>>)
    ensures Prepend(a, Prepend(b, rest)) == Prepend(a + b, rest)
  {
    match rest
    case Err(_) =>
    case Ok(t) => assert a + (b + t) == (a + b) + t;
  }

  // ---------------------------------------------------------------------------
  // A loop over a sequence whose body may raise

  /** The state after running `step` over `xs` from `s0`, front to back,
      stopping at the first error. */
  function Fold<S, X>(step: (S, X) -> Result<S>, s0: S, xs: seq<X>): Result<S>
    decreases |xs|
  {
    if |xs| == 0 then Ok(s0)
    else
      match Fold(step, s0, xs[..|xs| - 1])
      case Err(e) => Err(e)
      case Ok(s) => step(s, xs[|xs| - 1])
  }

  /** One more iteration of the loop. */
  lemma FoldStep<S, X>(step: (S, X) -> Result<S>, s0: S, xs: seq<X>, i: int)
    requires 0 <= i < |xs|
    ensures Fold(step, s0, xs[..i + 1]) ==
      match Fold(step, s0, xs[..i])
      case Err(e) => Err(e)
      case Ok(s) => step(s, xs[i])
  {
    assert xs[..i + 1][..i] == xs[..i];
  }

  /** One more iteration of a loop that has run well so far. */
  lemma FoldNext<S, X>(step: (S, X) -> Result<S>, s0: S, xs: seq<X>, i: int, s: S)
    requires 0 <= i < |xs| && Fold(step, s0, xs[..i]) == Ok(s)
    ensures Fold(step, s0, xs[..i + 1]) == step(s, xs[i])
  {
    FoldStep(step, s0, xs, i);
  }

  /** Once an iteration raises, the whole loop raises the same error. */
  lemma {:induction false} FoldErrSticks<S, X>(step: (S, X) -> Result<S>, s0: S, xs: seq<X>, i: int)
    requires 0 <= i <= |xs| && Fold(step, s0, xs[..i]).Err?
    ensures Fold(step, s0, xs) == Fold(step, s0, xs[..i])
    decreases |xs|
  {
    if i < |xs| {
      var init := xs[..|xs| - 1];
      assert init[..i] == xs[..i];
      FoldErrSticks(step, s0, init, i);
      assert Fold(step, s0, init).Err?;
    } else {
      assert xs[..i] == xs;
    }
  }

  /** Running over xs + ys is running over xs, then over ys from where it stopped. */
  lemma {:induction false} FoldAppend<S, X>(step: (S, X) -> Result<S>, s0: S, xs: seq<X>, ys: seq<X>)
    ensures Fold(step, s0, xs + ys) ==
      match Fold(step, s0, xs)
      case Err(e) => Err(e)
      case Ok(s) => Fold(step, s, ys)
    decreases |ys|
  {
    if |ys| == 0 {
      assert xs + ys == xs;
    } else {
      var zs := xs + ys;
      assert zs[..|zs| - 1] == xs + ys[..|ys| - 1];
      assert zs[|zs| - 1] == ys[|ys| - 1];
      FoldAppend(step, s0, xs, ys[..|ys| - 1]);
    }
  }
}
