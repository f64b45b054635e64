# viberetry: the retry decision loop

`viberetry` provides a decorator, `VibeRetry`, that wraps a function. When the
function raises an `Exception`, the wrapper asks a language model whether to
retry and for how long to wait. This project models the core of that
decorator:

- **The decorated function** (`wrapper`). It is a `while True` loop over a
  counter `attempts` and an append-only list `historical_attempts`.
  - It calls the target.
  - On a caught exception it re-raises once `attempts >= max_retries`.
    Otherwise it describes the failure to the oracle (the model).
  - It normalises the verdict.
  - It then either re-raises, or does three things: records
    `{attempt: attempts + 1, delay}`, sleeps when `delay > 0`, and counts the
    retry.
- **The verdict normalisation.** `should_retry` and `delay` are read from a
  dict (`.get`) or from an object (`getattr` with defaults `False` and `0`).
  The delay is then coerced with `int(delay or 0)`.
- **The dispatch of `__call__`.** `@vibe_retry` and
  `@vibe_retry(max_retries=..., remarks=...)` both work.

The outside world is abstract:

- The target is a function of the arguments and of the index of the call. It
  returns a value, raises an `Exception`, or raises a `BaseException` that
  `except Exception` does not catch.
- The oracle is a function of the request and of the index of the
  consultation. It either answers with a raw verdict or fails; a failure
  propagates out of the decorated function.
- Traceback formatting is a function of the failure.
- Calls, consultations and sleeps are recorded as an event trace.

Modules:

- `Verdict` (`verdict.dfy`) holds the normalisation, written as pure functions.
- `Retry` (`retry.dfy`) holds the following:
  - the data model;
  - one pass of the loop body, `Attempt`;
  - the specification of the loop, `Loop` and `Execute`;
  - the imperative loop `Invoke`, a `while` loop proved equal to `Execute`;
  - the trace observations `CallCount`, `Requests` and `Sleeps`.
- `RetryProperties` (`retry_properties.dfy`) holds the invariants and scenario
  lemmas. They are proved about the specification, and so hold for `Invoke`.
- `Decorator` (`decorator.dfy`) holds the bare and parameterised decorator
  forms.

## Model

| member | source | states |
|---|---|---|
| Retry.Invoke | src/viberetry/viberetry.py:66-115 | The while loop over `attempts`, the history and the event trace returns exactly the result and the events of the specification `Execute`. |
| Retry.Attempt | src/viberetry/viberetry.py:72-115 | One pass of the loop body always starts by calling the target with the same arguments. It schedules a retry only while `attempts < max_retries`, and that retry is numbered `attempts + 1`. |
| Retry.LastChars | src/viberetry/viberetry.py:85 | Python's `s[-4000:]`: the result is a suffix of the text, at most 4000 characters long, and the whole text when that is shorter. |
| Retry.FailureOf | src/viberetry/viberetry.py:79-86 | The failure context carries the function's name, the call's arguments and the caught exception, and a traceback of at most 4000 characters. |
| RetryProperties.TracebackIsTail | src/viberetry/viberetry.py:85 | The traceback in the failure context is the tail of the formatted traceback: all of it when that has at most 4000 characters, otherwise its last 4000. |
| Verdict.Normalize | src/viberetry/viberetry.py:98-104 | A missing `should_retry` means no retry, in both the dict and the object style. A present one retries exactly when it is truthy. A missing, None, False or 0 delay becomes 0. Any other delay becomes its integer value. |
| Verdict.NormalizeEncode | src/viberetry/models/models.py:6-10 | A verdict of the intended `{should_retry: bool, delay: int}` shape normalises back to exactly that decision, in either style. |
| Verdict.StyleIrrelevant | src/viberetry/viberetry.py:98-103 | A dict and an object with the same fields normalise alike: the `getattr` defaults agree with `.get` returning None. |
| RetryProperties.SessionInvariant | src/viberetry/viberetry.py:68-111 | From a reachable state, the loop ends in one where `attempts <= max(0, max_retries)`, the history length equals `attempts`, and the history's attempt numbers run 1..attempts. `attempts` never decreases and the history is only appended to. |
| RetryProperties.CallAndConsultCounts | src/viberetry/viberetry.py:72-95 | There are `attempts + 1` calls of the target. There is one consultation per scheduled retry, plus one more exactly when the run ended at the oracle. Consultations never exceed the retry budget. |
| RetryProperties.AttemptCounts | src/viberetry/viberetry.py:72-95 | One pass makes exactly one call. It consults the oracle at most once, and only for a caught exception while `attempts < max_retries`, with the request built for that exception. A pass that stops does not sleep. |
| RetryProperties.AttemptAgain | src/viberetry/viberetry.py:106-112 | A pass schedules a retry only after the oracle approved its request. The entry is `(attempts + 1, delay)`, and the pass sleeps for `delay` only when `delay > 0`. |
| RetryProperties.SleepsFollowHistory | src/viberetry/viberetry.py:106-111 | The run sleeps once for each recorded retry whose delay is positive, for that delay, in order. |
| RetryProperties.RequestsSeeHistory | src/viberetry/viberetry.py:88-95 | The i-th request to the oracle carries the history of the retries scheduled before it. |
| RetryProperties.RetriesWereApproved | src/viberetry/viberetry.py:95-108 | Every recorded retry was approved by the oracle's answer to the request of the same pass, with the delay recorded. |
| RetryProperties.EventsFaithful | src/viberetry/viberetry.py:73-86 | Every call receives the arguments of the first call. Every request carries the remarks, the function's name, those arguments and a traceback of at most 4000 characters. Every sleep is positive. |
| RetryProperties.ResultIsLastOutcome | src/viberetry/viberetry.py:72-115 | All calls but the last raised an `Exception`. The invocation returns the last call's value or re-raises the last call's own exception. An oracle failure ends the run only after a caught exception within budget; the last event is then the consultation with that exception's request, and the oracle failed on it with the reported reason. |
| RetryProperties.ExhaustionIsOracleFree | src/viberetry/viberetry.py:74-95 | The run ends at the oracle exactly when its last call raised an `Exception` while retries were left. So a caught exception is re-raised without consulting the oracle only once the budget is spent. |
| RetryProperties.ExecutionInvariants | src/viberetry/viberetry.py:66-111 | For a whole invocation, all of the following hold: `attempts <= max(0, max_retries)`; the history is numbered 1..attempts; there are `attempts + 1` calls; the request i sees the first i entries; the sleeps are the positive delays of the history; and the events are faithful. |
| RetryProperties.SuccessSkipsOracle | tests/test_viberetry.py:37-51 | If the first call returns, its value is returned after one call, with no consultation, no sleep and no history. |
| RetryProperties.DeclineStopsImmediately | tests/test_viberetry.py:83-104 | If the first call fails and the oracle declines, that exception is re-raised after one call and one consultation, with no sleep and no history. |
| RetryProperties.RetryThenSucceed | tests/test_viberetry.py:54-80 | Fail once, get approval with a delay, then succeed gives the following: two calls, one consultation, history `[(1, delay)]`, one sleep of `delay` when it is positive, and the second call's value. |
| RetryProperties.ApprovedPass | src/viberetry/viberetry.py:106-112 | A caught exception within budget, followed by an approving answer, schedules a retry with the approved delay and sleeps for it only when it is positive. |
| RetryProperties.ExhaustedPass | src/viberetry/viberetry.py:74-76 | On any pass, a caught exception once `attempts >= max_retries` is re-raised at once: one call, no consultation, no sleep, and the session unchanged. |
| RetryProperties.DeclinedPass | src/viberetry/viberetry.py:106-115 | On any pass, a caught exception within budget that the oracle declines ends the run. The run re-raises that exception after one call and one consultation, with no sleep and the session unchanged. |
| RetryProperties.FaultedPass | src/viberetry/viberetry.py:95 | On any pass, if the oracle fails on the request for a caught exception within budget, that failure propagates unchanged. It is not turned into a re-raise or a decline, and there is no sleep and no history entry. |
| RetryProperties.ExhaustionFrom | src/viberetry/viberetry.py:75-76 | With an always-failing target and an always-approving oracle, the loop spends the whole budget. It re-raises the exception of the call numbered `max(0, max_retries)`, which is the last event. |
| RetryProperties.ExhaustionSleeps | src/viberetry/viberetry.py:109-111 | In that scenario, every remaining retry sleeps once for the approved delay when it is positive. |
| RetryProperties.ExhaustionIsExact | tests/test_viberetry.py:107-130 | With `B = max(0, max_retries)`, an always-failing target and an always-approving oracle give the following: B + 1 calls, B consultations, B sleeps of the delay when it is positive, and the last call's exception re-raised. |
| Decorator.BareMatchesParameterised | src/viberetry/viberetry.py:119-122 | `__call__` decorates at once exactly when given a callable. `@vibe_retry` on a function then equals `@vibe_retry(...)` with the same options followed by application to it. |
| Decorator.BareDecoratorRetriesOnce | src/viberetry/viberetry.py:48 | The bare form uses `max_retries = 1`. An always-failing target with an approving oracle is then called twice and consulted once, and the second exception is re-raised. |

## Left out

- The model-client construction and the `vibe_eval` transport
  (`VibeLlmClient`) are foreign code. The oracle is an abstract function of
  the request and of the consultation index. Its failures, whether transport
  or parsing, are an abstract `Fault` that propagates unchanged.
- The text of the prompt is not modelled. That covers `json.dumps`, `repr` of
  the arguments, and `type(e).__name__`/`str(e)`. A request is the record of
  its inputs: the history, the remarks, and the failure (name, arguments,
  exception, truncated traceback). The exception's type name and message are
  functions of the abstract exception.
- `traceback.format_exc` is an abstract function of the exception. Only its
  truncation to the last 4000 characters is modelled. The joined string of a
  string is that string, so the truncation is effective.
- Sleeping and the passage of time are not modelled; `time.sleep` is recorded
  as a `Slept` event. A failure of `time.sleep` itself is not modelled. For
  example, a delay too large for the interpreter's clock raises
  `OverflowError` after the history append, and that exception leaves the
  wrapper; the model always sleeps and retries.
- `int()` of floats and strings inside the delay coercion is left out.
- Verdict values other than None, booleans and integers are not modelled,
  for `should_retry` as well as for `delay`. A string such as `"false"` is
  truthy in Python, so a verdict carrying it would retry; the model does not
  cover such verdicts.
- Verdict.Normalize: the delay is not clamped. The library's instruction
  to the model asks for "an integer number of seconds"
  (src/viberetry/config/config.py:31), and `RetryResult.delay` is a plain
  `int`. Nothing makes it non-negative. A negative integer passes through
  unchanged: it is
  recorded in the history and sent with later requests. Nothing sleeps
  unless the delay is positive. An invalid delay, such as a non-numeric
  string, is not defaulted to 0 either, because `int()` raises on it; that
  case belongs to the left-out `int()` of strings.
- `VibeRetryConfig`, the logger and the example clients are not modelled.
  They only configure the foreign client or do I/O.
- `functools.wraps` is not modelled; it copies the function's metadata.
- Keyword arguments are part of the abstract argument value `A`, together
  with the positional ones.
- Retry.FailureOf: building the failure context never fails in the model,
  so a caught failure within budget always reaches the oracle. In the
  source, three steps can raise: `func.__name__` (a `functools.partial` or a
  callable instance has none), the arguments' `__repr__`, and the
  exception's `__str__`. Such a new exception leaves the wrapper in place of
  the original failure, without consulting the oracle. That path is not
  modelled.
- RetryProperties.EventsFaithful: arguments are an immutable value `A`.
  Every call is passed the same argument objects. If the target changes a
  list or dict argument in place, later calls and the `repr(args)` of later
  requests see the changed contents. In-place changes of arguments are not
  modelled, so "the arguments of the first call" means the same objects, not
  equal contents.
