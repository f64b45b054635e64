/**
 * The decorator entry point: `vibe_retry` may be applied bare to a function
 * (`@vibe_retry`) or called with keyword options first
 * (`@vibe_retry(max_retries=..., remarks=...)`), which yields the decorator
 * that is then applied to the function.
 */
module Decorator {
  import opened Retry
  import opened RetryProperties

  /** The keyword defaults of `__call__`: one retry and no remarks. */
  const DefaultMaxRetries: int := 1
  const DefaultRemarks: string := ""

  /** The positional argument of `__call__`: a callable, or anything else (by default None). */
  datatype Argument<!A, R, E> = Callable(target: Target<A, R, E>) | NotCallable

  /** What `__call__` returns: the decorated function, or the decorator still awaiting its function. */
  datatype Decorated<!A, R, E> =
    | Wrapped(wrapper: Wrapper<A, R, E>)
    | AwaitingFunction(maxRetries: int, remarks: string)

  /** The inner decorator: closes the retry loop over the function and the two options. */
  function Decorate<A, R, E>(target: Target<A, R, E>, maxRetries: int, remarks: string): Wrapper<A, R, E>
  {
    Wrapper(target, maxRetries, remarks)
  }

  /** `__call__`: decorate at once when given a callable, otherwise hand back the decorator. */
  function Dispatch<A, R, E>(arg: Argument<A, R, E>, maxRetries: int, remarks: string): (d: Decorated<A, R, E>)
    ensures d.Wrapped? <==> arg.Callable?
    ensures d.Wrapped? ==> d.wrapper.target == arg.target
    ensures d.Wrapped? ==> d.wrapper.maxRetries == maxRetries && d.wrapper.remarks == remarks
    ensures d.AwaitingFunction? ==> d.maxRetries == maxRetries && d.remarks == remarks
  {
    match arg
    case Callable(target) => Wrapped(Decorate(target, maxRetries, remarks))
    case NotCallable => AwaitingFunction(maxRetries, remarks)
  }

  /** Applying a decorator returned by `__call__` to a function. */
  function Apply<A, R, E>(d: Decorated<A, R, E>, target: Target<A, R, E>): (w: Wrapper<A, R, E>)
    requires d.AwaitingFunction?
    ensures w.target == target && w.maxRetries == d.maxRetries && w.remarks == d.remarks
  {
    Decorate(target, d.maxRetries, d.remarks)
  }

  /**
   * Both spellings give the same decorated function: passing the function
   * directly equals asking for the decorator with the same options and then
   * applying it.
   */
  lemma BareMatchesParameterised<A, R, E>(target: Target<A, R, E>, maxRetries: int, remarks: string)
    ensures Dispatch(Callable(target), maxRetries, remarks)
         == Wrapped(Apply(Dispatch(NotCallable, maxRetries, remarks), target))
  {
  }

  /**
   * The bare form uses the defaults: with a function that always raises an
   * `Exception` and an oracle that always approves, it is called twice, the
   * oracle is consulted once, and the second failure is re-raised.
   */
  lemma BareDecoratorRetriesOnce<A, R, E>(target: Target<A, R, E>, world: World<A, E>, args: A, delay: int)
    requires forall j :: target.call(args, j).Err?
    requires forall r, j :: Approves(world.oracle(r, j), delay)
    ensures var w := Dispatch(Callable(target), DefaultMaxRetries, DefaultRemarks).wrapper;
      var run := Execute(w, world, args);
      && run.result == Raised(target.call(args, 1).error)
      && CallCount(run.events) == 2
      && |Requests(run.events)| == 1
  {
    var w := Dispatch(Callable(target), DefaultMaxRetries, DefaultRemarks).wrapper;
    ExhaustionIsExact(w, world, args, delay);
  }
}
