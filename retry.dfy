/**
 * The retry decision loop of a decorated call.
 *
 * One invocation of the decorated function runs the target with its
 * arguments; a caught failure is, while the retry budget lasts, described to
 * the decision oracle, whose normalised verdict either re-raises the original
 * failure or schedules another attempt: the attempt is appended to the
 * history, the loop sleeps for the delay when it is positive, and the counter
 * of attempts goes up by one.
 *
 * The outside world is abstract: the target is a function of the arguments
 * and of the index of the call, the oracle a function of the request and of
 * the index of the consultation, and the traceback text a function of the
 * failure. Calls, consultations and sleeps are recorded as events.
 */
module Retry {
  import opened Verdict

  /** Only the last 4000 characters of the formatted traceback reach the oracle. */
  const TraceLimit: nat := 4000

  /**
   * What one call of the target does: return a value, raise an `Exception`
   * (caught by the loop), or raise a `BaseException` that is not an
   * `Exception` (which `except Exception` lets through).
   */
  datatype Outcome<R, E> = Ok(value: R) | Err(error: E) | Escaped(error: E)

  /** The decorated callable: its `__name__` and its behaviour on the n-th call. */
  datatype Target<!A, R, E> = Target(name: string, call: (A, nat) -> Outcome<R, E>)

  /** What the inner decorator closes over: the target and the two keyword options. */
  datatype Wrapper<!A, R, E> = Wrapper(target: Target<A, R, E>, maxRetries: int, remarks: string)

  /** The failure context sent to the oracle (type name and message are those of `error`). */
  datatype Failure<A, E> = Failure(functionName: string, args: A, error: E, traceback: string)

  /** One scheduled retry: its 1-based number and the delay it waited. */
  datatype Entry = Entry(attempt: int, delay: int)

  /** Everything the prompt to the oracle is built from. */
  datatype Request<A, E> = Request(history: seq<Entry>, remarks: string, failure: Failure<A, E>)

  /** The oracle either answers with a verdict or itself fails (transport, parsing). */
  datatype Answer = Answered(raw: RawVerdict) | Fault(reason: string)

  /** The collaborators the loop cannot see into. */
  datatype World<!A, !E> = World(oracle: (Request<A, E>, nat) -> Answer, formatTrace: E -> string)

  /** Observable effects, in the order they happen. */
  datatype Event<A, E> = Called(args: A) | Consulted(request: Request<A, E>) | Slept(seconds: nat)

  /** How an invocation ends: the target's value, a re-raised failure, or the oracle's own fault. */
  datatype Result<R, E> = Returned(value: R) | Raised(error: E) | OracleFailed(reason: string)

  /** The per-invocation state: retries performed so far and their history. */
  datatype Session = Session(attempts: nat, history: seq<Entry>)

  /** A whole invocation: its result, its events and the session state it ended in. */
  datatype Run<A, R, E> = Run(result: Result<R, E>, events: seq<Event<A, E>>, final: Session)

  /** The effect of one pass through the loop body: stop with a result, or schedule a retry. */
  datatype Step<A, R, E> =
    | Stop(result: Result<R, E>, events: seq<Event<A, E>>)
    | Again(events: seq<Event<A, E>>, entry: Entry)

  /** The largest number of retries a session can schedule: `max(0, max_retries)`. */
  function Budget<A, R, E>(w: Wrapper<A, R, E>): nat
  {
    if w.maxRetries < 0 then 0 else w.maxRetries
  }

  /**
   * For `n > 0`, Python's `s[-n:]`: the last `n` characters of `s`, or all of
   * it when it is shorter. (Python's `s[-0:]` is all of `s`; this is only used
   * with `n` = 4000.)
   */
  function LastChars(s: string, n: nat): (r: string)
    ensures |r| <= n && |r| <= |s|
    ensures s == s[..|s| - |r|] + r
    ensures |s| <= n ==> r == s
    ensures |s| > n ==> |r| == n
  {
    if |s| <= n then s else s[|s| - n..]
  }

  /** The failure context built for the oracle from a caught failure. */
  function FailureOf<A, R, E>(w: Wrapper<A, R, E>, world: World<A, E>, args: A, e: E): (f: Failure<A, E>)
    ensures f.functionName == w.target.name && f.args == args && f.error == e
    ensures |f.traceback| <= TraceLimit
  {
    Failure(w.target.name, args, e, LastChars(world.formatTrace(e), TraceLimit))
  }

  /** The sleep a scheduled retry performs: none unless the delay is positive. */
  function SleepFor<A, E>(delay: int): seq<Event<A, E>>
  {
    if delay > 0 then [Slept(delay)] else []
  }

  /**
   * One pass through the loop body from session `s`. The oracle is consulted
   * only on a caught failure while `attempts < max_retries`, so a retry is
   * scheduled only then, and it is numbered `attempts + 1`.
   */
  function Attempt<A, R, E>(w: Wrapper<A, R, E>, world: World<A, E>, args: A, s: Session): (st: Step<A, R, E>)
    ensures st.Again? ==> s.attempts < w.maxRetries && st.entry.attempt == s.attempts + 1
    ensures |st.events| > 0 && st.events[0] == Called(args)
  {
    match w.target.call(args, s.attempts)
    case Ok(v) => Stop(Returned(v), [Called(args)])
    case Escaped(e) => Stop(Raised(e), [Called(args)])
    case Err(e) =>
      if s.attempts >= w.maxRetries then Stop(Raised(e), [Called(args)])
      else
        var request := Request(s.history, w.remarks, FailureOf(w, world, args, e));
        match world.oracle(request, s.attempts)
        case Fault(reason) => Stop(OracleFailed(reason), [Called(args), Consulted(request)])
        case Answered(raw) =>
          var d := Normalize(raw);
          if d.retry then
            Again([Called(args), Consulted(request)] + SleepFor(d.delay), Entry(s.attempts + 1, d.delay))
          else
            Stop(Raised(e), [Called(args), Consulted(request)])
  }

  /** The session after scheduling `entry`. */
  function Advance(s: Session, entry: Entry): Session
  {
    Session(s.attempts + 1, s.history + [entry])
  }

  /**
   * The loop from session `s` on, after the events `done` that came before:
   * the specification of `Invoke`.
   */
  function Loop<A, R, E>(w: Wrapper<A, R, E>, world: World<A, E>, args: A, s: Session,
                         done: seq<Event<A, E>>): (run: Run<A, R, E>)
    ensures |run.events| > |done|
    decreases w.maxRetries - s.attempts
  {
    match Attempt(w, world, args, s)
    case Stop(result, events) => Run(result, done + events, s)
    case Again(events, entry) => Loop(w, world, args, Advance(s, entry), done + events)
  }

  /** A whole invocation: the loop from a fresh session, before any event. */
  function Execute<A, R, E>(w: Wrapper<A, R, E>, world: World<A, E>, args: A): Run<A, R, E>
  {
    Loop(w, world, args, Session(0, []), [])
  }

  /** The decorated function: runs the retry loop on `args` and reports what it did. */
  method Invoke<A, R, E>(w: Wrapper<A, R, E>, world: World<A, E>, args: A)
    returns (result: Result<R, E>, events: seq<Event<A, E>>)
    ensures result == Execute(w, world, args).result
    ensures events == Execute(w, world, args).events
  {
    var attempts: nat := 0;
    var history: seq<Entry> := [];
    events := [];
    ghost var whole := Execute(w, world, args);
    while true
      invariant attempts <= Budget(w)
      invariant |history| == attempts
      invariant forall i :: 0 <= i < |history| ==> history[i].attempt == i + 1
      invariant Loop(w, world, args, Session(attempts, history), events) == whole
      decreases w.maxRetries - attempts
    {
      ghost var s := Session(attempts, history);
      ghost var done := events;
      events := events + [Called(args)];
      var outcome := w.target.call(args, attempts);
      match outcome {
        case Ok(v) =>
          return Returned(v), events;
        case Escaped(e) =>
          return Raised(e), events;
        case Err(e) =>
          if attempts >= w.maxRetries {
            return Raised(e), events;
          }
          var request := Request(history, w.remarks, FailureOf(w, world, args, e));
          events := events + [Consulted(request)];
          var answer := world.oracle(request, attempts);
          match answer {
            case Fault(reason) =>
              return OracleFailed(reason), events;
            case Answered(raw) =>
              var decision := Normalize(raw);
              if !decision.retry {
                return Raised(e), events;
              }
              var entry := Entry(attempts + 1, decision.delay);
              ghost var step := [Called(args), Consulted(request)] + SleepFor(decision.delay);
              assert Attempt(w, world, args, s) == Again(step, entry);
              history := history + [entry];
              if decision.delay > 0 {
                events := events + [Slept(decision.delay)];
              }
              assert events == done + step;
              attempts := attempts + 1;
              assert Session(attempts, history) == Advance(s, entry);
          }
      }
    }
  }

  /** The number of calls of the target in a trace. */
  function CallCount<A, E>(t: seq<Event<A, E>>): nat
  {
    if t == [] then 0 else (if t[0].Called? then 1 else 0) + CallCount(t[1..])
  }

  /** The requests the oracle received, in order. */
  function Requests<A, E>(t: seq<Event<A, E>>): seq<Request<A, E>>
  {
    if t == [] then [] else (if t[0].Consulted? then [t[0].request] else []) + Requests(t[1..])
  }

  /** The durations slept, in order. */
  function Sleeps<A, E>(t: seq<Event<A, E>>): seq<nat>
  {
    if t == [] then [] else (if t[0].Slept? then [t[0].seconds] else []) + Sleeps(t[1..])
  }

  /** The delays of a history that are positive, in order: the sleeps it calls for. */
  function PositiveDelays(h: seq<Entry>): seq<nat>
  {
    if h == [] then [] else (if h[0].delay > 0 then [h[0].delay as nat] else []) + PositiveDelays(h[1..])
  }
}
