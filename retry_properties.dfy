/**
 * What the retry loop guarantees, proved about its specification `Loop` (and
 * so, through the postcondition of `Invoke`, about the imperative loop).
 *
 * Most lemmas are stated for the loop resumed from any session state the loop
 * can reach (`Reachable`), by induction on the retries left; `Execute` starts
 * from the empty session, which is reachable.
 */
module RetryProperties {
  import opened Verdict
  import opened Retry

  /** The loop from session `s` on, with no earlier events. */
  function From<A, R, E>(w: Wrapper<A, R, E>, world: World<A, E>, args: A, s: Session): Run<A, R, E>
  {
    Loop(w, world, args, s, [])
  }

  /** The session invariant: within budget, one history entry per retry, numbered 1..attempts. */
  predicate Reachable<A, R, E>(w: Wrapper<A, R, E>, s: Session)
  {
    && s.attempts <= Budget(w)
    && |s.history| == s.attempts
    && forall i :: 0 <= i < |s.history| ==> s.history[i].attempt == i + 1
  }

  /** The oracle answered with a verdict that asks for a retry after `delay`. */
  predicate Approves(answer: Answer, delay: int)
  {
    answer.Answered? && Normalize(answer.raw) == Decision(true, delay)
  }

  /** The oracle answered with a verdict that does not ask for a retry. */
  predicate Declines(answer: Answer)
  {
    answer.Answered? && !Normalize(answer.raw).retry
  }

  /** The request built for the failure `e` caught in session `s`. */
  function RequestFor<A, R, E>(w: Wrapper<A, R, E>, world: World<A, E>, args: A, s: Session, e: E): Request<A, E>
  {
    Request(s.history, w.remarks, FailureOf(w, world, args, e))
  }

  /** What every event of a run says about the call it belongs to. */
  ghost predicate Faithful<A, R, E>(w: Wrapper<A, R, E>, args: A, e: Event<A, E>)
  {
    match e
    case Called(a) => a == args
    case Consulted(r) =>
      && r.remarks == w.remarks
      && r.failure.functionName == w.target.name
      && r.failure.args == args
      && |r.failure.traceback| <= TraceLimit
    case Slept(seconds) => seconds > 0
  }

  // ---------------------------------------------------------------------------
  // Trace observations distribute over concatenation.

  /** A trace that ends with `b` ends with `b`'s last event. */
  lemma LastOfAppend<A, E>(a: seq<Event<A, E>>, b: seq<Event<A, E>>)
    requires |b| > 0
    ensures (a + b)[|a + b| - 1] == b[|b| - 1]
  {
  }

  lemma {:induction false} CallCountAppend<A, E>(a: seq<Event<A, E>>, b: seq<Event<A, E>>)
    ensures CallCount(a + b) == CallCount(a) + CallCount(b)
  {
    if a == [] {
      assert a + b == b;
    } else {
      assert (a + b)[0] == a[0];
      assert (a + b)[1..] == a[1..] + b;
      CallCountAppend(a[1..], b);
    }
  }

  lemma {:induction false} RequestsAppend<A, E>(a: seq<Event<A, E>>, b: seq<Event<A, E>>)
    ensures Requests(a + b) == Requests(a) + Requests(b)
  {
    if a == [] {
      assert a + b == b;
    } else {
      assert (a + b)[0] == a[0];
      assert (a + b)[1..] == a[1..] + b;
      RequestsAppend(a[1..], b);
    }
  }

  lemma {:induction false} SleepsAppend<A, E>(a: seq<Event<A, E>>, b: seq<Event<A, E>>)
    ensures Sleeps(a + b) == Sleeps(a) + Sleeps(b)
  {
    if a == [] {
      assert a + b == b;
    } else {
      assert (a + b)[0] == a[0];
      assert (a + b)[1..] == a[1..] + b;
      SleepsAppend(a[1..], b);
    }
  }

  lemma {:induction false} PositiveDelaysAppend(a: seq<Entry>, b: seq<Entry>)
    ensures PositiveDelays(a + b) == PositiveDelays(a) + PositiveDelays(b)
  {
    if a == [] {
      assert a + b == b;
    } else {
      assert (a + b)[0] == a[0];
      assert (a + b)[1..] == a[1..] + b;
      PositiveDelaysAppend(a[1..], b);
    }
  }

  /**
   * The traceback sent to the oracle is the tail of the formatted traceback:
   * all of it when it fits in `TraceLimit` characters, otherwise its last
   * `TraceLimit` characters.
   */
  lemma TracebackIsTail<A, R, E>(w: Wrapper<A, R, E>, world: World<A, E>, args: A, e: E)
    ensures var t := world.formatTrace(e);
      var f := FailureOf(w, world, args, e);
      && |f.traceback| <= |t|
      && t == t[..|t| - |f.traceback|] + f.traceback
      && (|t| <= TraceLimit ==> f.traceback == t)
      && (|t| > TraceLimit ==> |f.traceback| == TraceLimit)
  {
  }

  // ---------------------------------------------------------------------------
  // Unfolding the specification.

  /** `run` is `base` with the events `done` in front. */
  ghost predicate Shifted<A, R, E>(run: Run<A, R, E>, done: seq<Event<A, E>>, base: Run<A, R, E>)
  {
    run.result == base.result && run.events == done + base.events && run.final == base.final
  }

  /** Two shifts of the same run by `done + step` and by `step` differ by `done`. */
  lemma ShiftCompose<A, R, E>(a: Run<A, R, E>, b: Run<A, R, E>, base: Run<A, R, E>,
                              done: seq<Event<A, E>>, step: seq<Event<A, E>>)
    requires Shifted(a, done + step, base) && Shifted(b, step, base)
    ensures Shifted(a, done, b)
  {
    assert (done + step) + base.events == done + (step + base.events);
  }

  /** The events seen before the loop is resumed are a prefix that does not affect the rest. */
  lemma {:induction false} LoopShift<A, R, E>(w: Wrapper<A, R, E>, world: World<A, E>, args: A, s: Session,
                                              done: seq<Event<A, E>>)
    ensures Shifted(Loop(w, world, args, s, done), done, From(w, world, args, s))
    decreases w.maxRetries - s.attempts
  {
    match Attempt(w, world, args, s)
    case Stop(_, events) =>
      assert [] + events == events;
    case Again(step, entry) =>
      var next := Advance(s, entry);
      LoopShift(w, world, args, next, done + step);
      LoopShift(w, world, args, next, step);
      assert [] + step == step;
      ShiftCompose(Loop(w, world, args, next, done + step), Loop(w, world, args, next, step),
                   From(w, world, args, next), done, step);
  }

  /** A pass that stops ends the run where it is, with its own events. */
  lemma UnfoldStop<A, R, E>(w: Wrapper<A, R, E>, world: World<A, E>, args: A, s: Session)
    requires Attempt(w, world, args, s).Stop?
    ensures From(w, world, args, s) == Run(Attempt(w, world, args, s).result, Attempt(w, world, args, s).events, s)
  {
    assert [] + Attempt(w, world, args, s).events == Attempt(w, world, args, s).events;
  }

  /** A pass that schedules a retry: the run is this pass's events followed by the run from the advanced session. */
  lemma UnfoldAgain<A, R, E>(w: Wrapper<A, R, E>, world: World<A, E>, args: A, s: Session)
    requires Attempt(w, world, args, s).Again?
    ensures var st := Attempt(w, world, args, s);
      var rest := From(w, world, args, Advance(s, st.entry));
      && From(w, world, args, s).result == rest.result
      && From(w, world, args, s).final == rest.final
      && From(w, world, args, s).events == st.events + rest.events
  {
    var st := Attempt(w, world, args, s);
    assert [] + st.events == st.events;
    LoopShift(w, world, args, Advance(s, st.entry), st.events);
  }

  /** The events of a pass that reached the oracle: the call, the consultation, then its sleep if any. */
  lemma ConsultedPass<A, E>(args: A, request: Request<A, E>, sleep: seq<Event<A, E>>)
    requires sleep == [] || (|sleep| == 1 && sleep[0].Slept?)
    ensures var t := [Called(args), Consulted(request)] + sleep;
      && CallCount(t) == 1
      && Requests(t) == [request]
      && Sleeps(t) == Sleeps(sleep)
  {
    var pair: seq<Event<A, E>> := [Called(args), Consulted(request)];
    var tail: seq<Event<A, E>> := [Consulted(request)];
    assert tail[1..] == [] && pair[1..] == tail;
    assert CallCount(tail) == 0 && Requests(tail) == [request] && Sleeps(tail) == [];
    assert CallCount(pair) == 1 && Requests(pair) == [request] && Sleeps(pair) == [];
    if sleep != [] {
      assert sleep[1..] == [];
    }
    assert CallCount(sleep) == 0 && Requests(sleep) == [];
    CallCountAppend(pair, sleep);
    RequestsAppend(pair, sleep);
    SleepsAppend(pair, sleep);
  }

  /**
   * What one pass does: exactly one call; the oracle consulted at most once,
   * with the request for the caught failure, and only when the failure was
   * caught within budget; a consultation is the last event of a pass that stops.
   */
  lemma AttemptCounts<A, R, E>(w: Wrapper<A, R, E>, world: World<A, E>, args: A, s: Session)
    ensures var st := Attempt(w, world, args, s);
      && CallCount(st.events) == 1
      && |Requests(st.events)| <= 1
      && (st.Stop? ==> Sleeps(st.events) == [] && (|Requests(st.events)| == 1 <==> st.events[|st.events| - 1].Consulted?))
      && (st.Again? ==> |Requests(st.events)| == 1)
      && (|Requests(st.events)| == 1 ==>
            w.target.call(args, s.attempts).Err?
            && s.attempts < w.maxRetries
            && Requests(st.events)[0] == RequestFor(w, world, args, s, w.target.call(args, s.attempts).error))
  {
    var st := Attempt(w, world, args, s);
    match w.target.call(args, s.attempts)
    case Ok(v) =>
    case Escaped(e) =>
    case Err(e) =>
      if s.attempts < w.maxRetries {
        var request := RequestFor(w, world, args, s, e);
        if st.Again? {
          ConsultedPass(args, request, SleepFor<A, E>(st.entry.delay));
        } else {
          ConsultedPass(args, request, []);
          assert st.events == [Called(args), Consulted(request)] + [];
        }
      }
  }

  /** A pass schedules a retry only on the oracle's approval of its request, with the approved delay and its sleep. */
  lemma AttemptAgain<A, R, E>(w: Wrapper<A, R, E>, world: World<A, E>, args: A, s: Session)
    requires Attempt(w, world, args, s).Again?
    ensures var st := Attempt(w, world, args, s);
      && w.target.call(args, s.attempts).Err?
      && Requests(st.events) == [RequestFor(w, world, args, s, w.target.call(args, s.attempts).error)]
      && Approves(world.oracle(Requests(st.events)[0], s.attempts), st.entry.delay)
      && st.entry == Entry(s.attempts + 1, st.entry.delay)
      && Sleeps(st.events) == PositiveDelays([st.entry])
  {
    var st := Attempt(w, world, args, s);
    var e := w.target.call(args, s.attempts).error;
    var request := RequestFor(w, world, args, s, e);
    var sleep := SleepFor<A, E>(st.entry.delay);
    ConsultedPass(args, request, sleep);
    assert st.events == [Called(args), Consulted(request)] + sleep;
    if st.entry.delay > 0 {
      assert sleep[1..] == [];
    }
  }

  /** Every event of a pass is faithful to the wrapper and the arguments. */
  lemma AttemptFaithful<A, R, E>(w: Wrapper<A, R, E>, world: World<A, E>, args: A, s: Session)
    ensures forall ev | ev in Attempt(w, world, args, s).events :: Faithful(w, args, ev)
  {
  }

  // ---------------------------------------------------------------------------
  // Invariants of the session.

  /**
   * The session invariant holds when the loop ends; the loop only appends to
   * the history and only increases the number of attempts.
   */
  lemma {:induction false} SessionInvariant<A, R, E>(w: Wrapper<A, R, E>, world: World<A, E>, args: A, s: Session)
    requires Reachable(w, s)
    ensures var run := From(w, world, args, s);
      && Reachable(w, run.final)
      && s.attempts <= run.final.attempts
      && run.final.history[..s.attempts] == s.history
    decreases w.maxRetries - s.attempts
  {
    var st := Attempt(w, world, args, s);
    if st.Stop? {
      UnfoldStop(w, world, args, s);
    } else {
      UnfoldAgain(w, world, args, s);
      var next := Advance(s, st.entry);
      SessionInvariant(w, world, args, next);
      var h := From(w, world, args, next).final.history;
      assert h[..s.attempts] == h[..s.attempts + 1][..s.attempts];
    }
  }

  /**
   * From a reachable session: one call per pass, so `attempts + 1` calls in
   * all; one consultation per scheduled retry plus one more exactly when the
   * run ended at the oracle; never more consultations than the budget allows.
   */
  lemma {:induction false} CallAndConsultCounts<A, R, E>(w: Wrapper<A, R, E>, world: World<A, E>, args: A, s: Session)
    requires Reachable(w, s)
    ensures var run := From(w, world, args, s);
      var n := run.final.attempts - s.attempts;
      && |run.events| > 0
      && CallCount(run.events) == n + 1
      && |Requests(run.events)| == n + (if run.events[|run.events| - 1].Consulted? then 1 else 0)
      && |Requests(run.events)| <= Budget(w) - s.attempts
    decreases w.maxRetries - s.attempts
  {
    AttemptCounts(w, world, args, s);
    SessionInvariant(w, world, args, s);
    var st := Attempt(w, world, args, s);
    if st.Stop? {
      UnfoldStop(w, world, args, s);
    } else {
      UnfoldAgain(w, world, args, s);
      var next := Advance(s, st.entry);
      CallAndConsultCounts(w, world, args, next);
      var rest := From(w, world, args, next);
      CallCountAppend(st.events, rest.events);
      RequestsAppend(st.events, rest.events);
      LastOfAppend(st.events, rest.events);
    }
  }

  /** The sleeps of `run` are the positive delays of the retries it scheduled after the first `from`. */
  predicate SleepsMatch<A, R, E>(from: nat, run: Run<A, R, E>)
  {
    from <= |run.final.history| && Sleeps(run.events) == PositiveDelays(run.final.history[from..])
  }

  /** A pass that stops does not sleep and leaves the history as it was. */
  lemma StopSleepsMatch<A, R, E>(w: Wrapper<A, R, E>, world: World<A, E>, args: A, s: Session)
    requires Reachable(w, s) && Attempt(w, world, args, s).Stop?
    ensures SleepsMatch(s.attempts, From(w, world, args, s))
  {
    UnfoldStop(w, world, args, s);
    AttemptCounts(w, world, args, s);
    assert s.history[s.attempts..] == [];
  }

  /** Prepending a pass that sleeps as its history entry calls for keeps sleeps in step with the history. */
  lemma SleepsPrepend<A, R, E>(from: nat, entry: Entry, events: seq<Event<A, E>>, rest: Run<A, R, E>, run: Run<A, R, E>)
    requires run.events == events + rest.events && run.final == rest.final
    requires Sleeps(events) == PositiveDelays([entry])
    requires from < |run.final.history| && run.final.history[from] == entry
    requires SleepsMatch(from + 1, rest)
    ensures SleepsMatch(from, run)
  {
    var h := run.final.history;
    SleepsAppend(events, rest.events);
    assert h[from..] == [entry] + h[from + 1..];
    PositiveDelaysAppend([entry], h[from + 1..]);
  }

  /** Sleeps happen once per scheduled retry whose delay is positive, for exactly that delay, in order. */
  lemma {:induction false} SleepsFollowHistory<A, R, E>(w: Wrapper<A, R, E>, world: World<A, E>, args: A, s: Session)
    requires Reachable(w, s)
    ensures SleepsMatch(s.attempts, From(w, world, args, s))
    decreases w.maxRetries - s.attempts
  {
    var st := Attempt(w, world, args, s);
    if st.Again? {
      var next := Advance(s, st.entry);
      SleepsFollowHistory(w, world, args, next);
      UnfoldAgain(w, world, args, s);
      AttemptAgain(w, world, args, s);
      SessionInvariant(w, world, args, next);
      var h := From(w, world, args, s).final.history;
      assert h[..s.attempts + 1] == next.history;
      assert h[s.attempts] == next.history[s.attempts];
      SleepsPrepend(s.attempts, st.entry, st.events, From(w, world, args, next), From(w, world, args, s));
    } else {
      StopSleepsMatch(w, world, args, s);
    }
  }

  /** Each request of `run`, the i-th counted from session `s`, carries the history of the retries scheduled before it. */
  predicate SeesHistory<A, R, E>(s: Session, run: Run<A, R, E>)
  {
    var reqs := Requests(run.events);
    forall i :: 0 <= i < |reqs| ==> SawHistory(reqs[i], run.final.history, s.attempts + i)
  }

  /** Request `r` carries the first `n` entries of history `h`. */
  predicate SawHistory<A, E>(r: Request<A, E>, h: seq<Entry>, n: int)
  {
    0 <= n <= |h| && r.history == h[..n]
  }

  /** A pass that stops sent at most one request, carrying the history so far. */
  lemma StopSeesHistory<A, R, E>(w: Wrapper<A, R, E>, world: World<A, E>, args: A, s: Session)
    requires Reachable(w, s) && Attempt(w, world, args, s).Stop?
    ensures SeesHistory(s, From(w, world, args, s))
  {
    UnfoldStop(w, world, args, s);
    AttemptCounts(w, world, args, s);
    assert s.history[..s.attempts] == s.history;
  }

  /** Prepending a pass with one request that carries the history so far keeps `SeesHistory`. */
  lemma {:induction false} SeesHistoryPrepend<A, R, E>(s: Session, next: Session, events: seq<Event<A, E>>,
                                                       first: Request<A, E>, rest: Run<A, R, E>, run: Run<A, R, E>)
    requires run.events == events + rest.events && run.final == rest.final
    requires Requests(events) == [first]
    requires next.attempts == s.attempts + 1
    requires s.attempts <= |run.final.history| && first.history == run.final.history[..s.attempts]
    requires SeesHistory(next, rest)
    ensures SeesHistory(s, run)
  {
    RequestsAppend(events, rest.events);
    var reqs := Requests(run.events);
    var later := Requests(rest.events);
    assert reqs == [first] + later;
    forall i | 0 <= i < |reqs|
      ensures SawHistory(reqs[i], run.final.history, s.attempts + i)
    {
      if i > 0 {
        assert reqs[i] == later[i - 1];
        assert next.attempts + (i - 1) == s.attempts + i;
      }
    }
  }

  /**
   * The i-th request the oracle receives (counted from `s`) carries the
   * history of the retries scheduled before it.
   */
  lemma {:induction false} RequestsSeeHistory<A, R, E>(w: Wrapper<A, R, E>, world: World<A, E>, args: A, s: Session)
    requires Reachable(w, s)
    ensures SeesHistory(s, From(w, world, args, s))
    decreases w.maxRetries - s.attempts
  {
    var st := Attempt(w, world, args, s);
    if st.Again? {
      var next := Advance(s, st.entry);
      RequestsSeeHistory(w, world, args, next);
      UnfoldAgain(w, world, args, s);
      AttemptAgain(w, world, args, s);
      SessionInvariant(w, world, args, s);
      SeesHistoryPrepend(s, next, st.events, Requests(st.events)[0], From(w, world, args, next), From(w, world, args, s));
    } else {
      StopSeesHistory(w, world, args, s);
    }
  }

  /**
   * Each retry `run` scheduled after the first `s.attempts` records the delay
   * of a verdict that approved it, given in answer to the request of its pass.
   */
  predicate ApprovedHistory<A, R, E>(world: World<A, E>, s: Session, run: Run<A, R, E>)
  {
    var reqs := Requests(run.events);
    && s.attempts <= run.final.attempts <= |run.final.history|
    && run.final.attempts - s.attempts <= |reqs|
    && forall j :: 0 <= j < run.final.attempts - s.attempts ==>
         Approves(world.oracle(reqs[j], s.attempts + j), run.final.history[s.attempts + j].delay)
  }

  /** Prepending an approved pass whose entry the history records keeps `ApprovedHistory`. */
  lemma {:induction false} ApprovedPrepend<A, R, E>(world: World<A, E>, s: Session, next: Session,
                                                    events: seq<Event<A, E>>, first: Request<A, E>, entry: Entry,
                                                    rest: Run<A, R, E>, run: Run<A, R, E>)
    requires run.events == events + rest.events && run.final == rest.final
    requires Requests(events) == [first]
    requires next.attempts == s.attempts + 1
    requires s.attempts < |run.final.history| && run.final.history[s.attempts] == entry
    requires Approves(world.oracle(first, s.attempts), entry.delay)
    requires ApprovedHistory(world, next, rest)
    ensures ApprovedHistory(world, s, run)
  {
    RequestsAppend(events, rest.events);
    var reqs := Requests(run.events);
    var later := Requests(rest.events);
    var h := run.final.history;
    assert reqs == [first] + later;
    forall j | 0 <= j < run.final.attempts - s.attempts
      ensures Approves(world.oracle(reqs[j], s.attempts + j), h[s.attempts + j].delay)
    {
      if j == 0 {
        assert reqs[0] == first;
      } else {
        assert reqs[j] == later[j - 1];
        assert s.attempts + j == next.attempts + (j - 1);
        assert Approves(world.oracle(later[j - 1], next.attempts + (j - 1)), h[next.attempts + (j - 1)].delay);
      }
    }
  }

  /** Every scheduled retry was approved by the oracle, with the delay the history records. */
  lemma {:induction false} RetriesWereApproved<A, R, E>(w: Wrapper<A, R, E>, world: World<A, E>, args: A, s: Session)
    requires Reachable(w, s)
    ensures ApprovedHistory(world, s, From(w, world, args, s))
    decreases w.maxRetries - s.attempts
  {
    var st := Attempt(w, world, args, s);
    if st.Again? {
      var next := Advance(s, st.entry);
      RetriesWereApproved(w, world, args, next);
      UnfoldAgain(w, world, args, s);
      AttemptAgain(w, world, args, s);
      SessionInvariant(w, world, args, next);
      var h := From(w, world, args, s).final.history;
      assert h[..s.attempts + 1] == next.history;
      assert h[s.attempts] == next.history[s.attempts];
      ApprovedPrepend(world, s, next, st.events, Requests(st.events)[0], st.entry,
                      From(w, world, args, next), From(w, world, args, s));
    } else {
      UnfoldStop(w, world, args, s);
    }
  }

  /**
   * Every call of the target gets the arguments of the first call, every
   * request carries the wrapper's remarks, the target's name, those arguments
   * and a traceback of at most `TraceLimit` characters, and every sleep is positive.
   */
  lemma {:induction false} EventsFaithful<A, R, E>(w: Wrapper<A, R, E>, world: World<A, E>, args: A, s: Session)
    ensures forall ev | ev in From(w, world, args, s).events :: Faithful(w, args, ev)
    decreases w.maxRetries - s.attempts
  {
    AttemptFaithful(w, world, args, s);
    var st := Attempt(w, world, args, s);
    if st.Stop? {
      UnfoldStop(w, world, args, s);
    } else {
      UnfoldAgain(w, world, args, s);
      EventsFaithful(w, world, args, Advance(s, st.entry));
    }
  }

  /**
   * A run that ends with the oracle's own failure: its last call raised an
   * `Exception` within budget, its last event consulted the oracle with the
   * request for that exception, and the oracle failed with the reported reason.
   */
  ghost predicate FaultedAtEnd<A, R, E>(w: Wrapper<A, R, E>, world: World<A, E>, args: A, run: Run<A, R, E>)
    requires run.result.OracleFailed?
  {
    var last := w.target.call(args, run.final.attempts);
    && last.Err?
    && run.final.attempts < w.maxRetries
    && |run.events| > 0
    && var request := RequestFor(w, world, args, run.final, last.error);
       && run.events[|run.events| - 1] == Consulted(request)
       && world.oracle(request, run.final.attempts) == Fault(run.result.reason)
  }

  /**
   * The run's result is what its last call produced: the value it returned,
   * or the very failure it raised (re-raised unchanged), or, on an oracle
   * fault, a caught failure of that call whose request the oracle failed on.
   * All calls from session `s` on before the last failed with a caught
   * exception.
   */
  ghost predicate EndsWithLastOutcome<A, R, E>(w: Wrapper<A, R, E>, world: World<A, E>, args: A, s: Session, run: Run<A, R, E>)
  {
    var last := w.target.call(args, run.final.attempts);
    && s.attempts <= run.final.attempts
    && (forall j :: s.attempts <= j < run.final.attempts ==> w.target.call(args, j).Err?)
    && (run.result.Returned? ==> last == Ok(run.result.value))
    && (run.result.Raised? ==> last == Err(run.result.error) || last == Escaped(run.result.error))
    && (run.result.OracleFailed? ==> FaultedAtEnd(w, world, args, run))
  }

  /** A pass that stops ends on the outcome of its own call. */
  lemma StopLastOutcome<A, R, E>(w: Wrapper<A, R, E>, world: World<A, E>, args: A, s: Session)
    requires Attempt(w, world, args, s).Stop?
    ensures EndsWithLastOutcome(w, world, args, s, From(w, world, args, s))
  {
    UnfoldStop(w, world, args, s);
  }

  /** A caught failure's events put in front of a run keep its last outcome. */
  lemma LastOutcomePrepend<A, R, E>(w: Wrapper<A, R, E>, world: World<A, E>, args: A, s: Session, next: Session,
                                    step: seq<Event<A, E>>, rest: Run<A, R, E>, run: Run<A, R, E>)
    requires w.target.call(args, s.attempts).Err? && next.attempts == s.attempts + 1
    requires EndsWithLastOutcome(w, world, args, next, rest)
    requires run.result == rest.result && run.final == rest.final && run.events == step + rest.events
    ensures EndsWithLastOutcome(w, world, args, s, run)
  {
    if run.result.OracleFailed? {
      LastOfAppend(step, rest.events);
    }
  }

  lemma {:induction false} ResultIsLastOutcome<A, R, E>(w: Wrapper<A, R, E>, world: World<A, E>, args: A, s: Session)
    ensures EndsWithLastOutcome(w, world, args, s, From(w, world, args, s))
    decreases w.maxRetries - s.attempts
  {
    var st := Attempt(w, world, args, s);
    if st.Stop? {
      StopLastOutcome(w, world, args, s);
    } else {
      var next := Advance(s, st.entry);
      UnfoldAgain(w, world, args, s);
      ResultIsLastOutcome(w, world, args, next);
      LastOutcomePrepend(w, world, args, s, next, st.events, From(w, world, args, next), From(w, world, args, s));
    }
  }

  /** The run ends by consulting the oracle exactly when its last call raised an `Exception` while retries were left. */
  predicate EndsAtOracle<A, R, E>(w: Wrapper<A, R, E>, args: A, run: Run<A, R, E>)
  {
    && |run.events| > 0
    && var last := run.events[|run.events| - 1];
       (last.Consulted? <==> w.target.call(args, run.final.attempts).Err? && run.final.attempts < w.maxRetries)
  }

  /** A pass that stops ends the run at the oracle exactly when its call failed with an `Exception` within budget. */
  lemma StopAtOracle<A, R, E>(w: Wrapper<A, R, E>, world: World<A, E>, args: A, s: Session)
    requires Attempt(w, world, args, s).Stop?
    ensures EndsAtOracle(w, args, From(w, world, args, s))
  {
    UnfoldStop(w, world, args, s);
  }

  /**
   * The run ends by consulting the oracle exactly when its last call raised
   * an `Exception` while retries were left: a re-raise of a caught failure
   * without consulting the oracle happens only once the budget is spent.
   */
  lemma {:induction false} ExhaustionIsOracleFree<A, R, E>(w: Wrapper<A, R, E>, world: World<A, E>, args: A, s: Session)
    ensures EndsAtOracle(w, args, From(w, world, args, s))
    decreases w.maxRetries - s.attempts
  {
    var st := Attempt(w, world, args, s);
    if st.Stop? {
      StopAtOracle(w, world, args, s);
    } else {
      UnfoldAgain(w, world, args, s);
      var next := Advance(s, st.entry);
      ExhaustionIsOracleFree(w, world, args, next);
      var rest := From(w, world, args, next);
      LastOfAppend(st.events, rest.events);
    }
  }

  // ---------------------------------------------------------------------------
  // Whole invocations.

  /** The bookkeeping of a whole invocation, from the fresh session the decorated function starts with. */
  lemma ExecutionInvariants<A, R, E>(w: Wrapper<A, R, E>, world: World<A, E>, args: A)
    ensures var run := Execute(w, world, args);
      var reqs := Requests(run.events);
      && run.final.attempts <= Budget(w)
      && |run.final.history| == run.final.attempts
      && (forall i :: 0 <= i < |run.final.history| ==> run.final.history[i].attempt == i + 1)
      && CallCount(run.events) == run.final.attempts + 1
      && |reqs| <= Budget(w)
      && (forall i :: 0 <= i < |reqs| ==> i <= |run.final.history| && reqs[i].history == run.final.history[..i])
      && Sleeps(run.events) == PositiveDelays(run.final.history)
      && (forall ev | ev in run.events :: Faithful(w, args, ev))
  {
    var s := Session(0, []);
    SessionInvariant(w, world, args, s);
    CallAndConsultCounts(w, world, args, s);
    RequestsSeeHistory(w, world, args, s);
    SleepsFollowHistory(w, world, args, s);
    EventsFaithful(w, world, args, s);
    assert From(w, world, args, s).final.history[0..] == From(w, world, args, s).final.history;
  }

  /** If the first call succeeds, its value is returned and the oracle is never consulted. */
  lemma SuccessSkipsOracle<A, R, E>(w: Wrapper<A, R, E>, world: World<A, E>, args: A)
    requires w.target.call(args, 0).Ok?
    ensures Execute(w, world, args) == Run(Returned(w.target.call(args, 0).value), [Called(args)], Session(0, []))
  {
  }

  /** If the oracle declines the first failure, that failure is re-raised with no sleep and no retry. */
  lemma DeclineStopsImmediately<A, R, E>(w: Wrapper<A, R, E>, world: World<A, E>, args: A, e: E)
    requires w.target.call(args, 0) == Err(e) && w.maxRetries > 0
    requires Declines(world.oracle(RequestFor(w, world, args, Session(0, []), e), 0))
    ensures Execute(w, world, args)
         == Run(Raised(e), [Called(args), Consulted(RequestFor(w, world, args, Session(0, []), e))], Session(0, []))
  {
  }

  /**
   * Fail once, the oracle approves with `delay`, then succeed: two calls, one
   * consultation, one sleep of exactly `delay` when it is positive, and the
   * second call's value.
   */
  lemma RetryThenSucceed<A, R, E>(w: Wrapper<A, R, E>, world: World<A, E>, args: A, e: E, v: R, delay: int)
    requires w.target.call(args, 0) == Err(e) && w.target.call(args, 1) == Ok(v) && w.maxRetries > 0
    requires Approves(world.oracle(RequestFor(w, world, args, Session(0, []), e), 0), delay)
    ensures var run := Execute(w, world, args);
      && run.result == Returned(v)
      && run.events == [Called(args), Consulted(RequestFor(w, world, args, Session(0, []), e))]
                       + SleepFor(delay) + [Called(args)]
      && run.final == Session(1, [Entry(1, delay)])
      && CallCount(run.events) == 2
      && Sleeps(run.events) == (if delay > 0 then [delay as nat] else [])
  {
    var s := Session(0, []);
    ApprovedPass(w, world, args, s, delay);
    var st := Attempt(w, world, args, s);
    UnfoldAgain(w, world, args, s);
    var next := Advance(s, st.entry);
    UnfoldStop(w, world, args, next);
    AttemptCounts(w, world, args, s);
    CallCountAppend(st.events, [Called(args)]);
    SleepsAppend(st.events, [Called(args)]);
  }

  /** Within budget, a failing call and an approving oracle schedule a retry with that delay. */
  lemma ApprovedPass<A, R, E>(w: Wrapper<A, R, E>, world: World<A, E>, args: A, s: Session, delay: int)
    requires w.target.call(args, s.attempts).Err? && s.attempts < w.maxRetries
    requires Approves(world.oracle(RequestFor(w, world, args, s, w.target.call(args, s.attempts).error), s.attempts), delay)
    ensures Attempt(w, world, args, s).Again?
    ensures Attempt(w, world, args, s).entry.delay == delay
    ensures Sleeps(Attempt(w, world, args, s).events) == if delay > 0 then [delay as nat] else []
  {
    var st := Attempt(w, world, args, s);
    AttemptAgain(w, world, args, s);
    assert PositiveDelays([st.entry]) == if delay > 0 then [delay as nat] else [];
  }

  /** Within budget, a failing call and a declining oracle re-raise that very failure: no sleep, no history entry. */
  lemma DeclinedPass<A, R, E>(w: Wrapper<A, R, E>, world: World<A, E>, args: A, s: Session, e: E)
    requires w.target.call(args, s.attempts) == Err(e) && s.attempts < w.maxRetries
    requires Declines(world.oracle(RequestFor(w, world, args, s, e), s.attempts))
    ensures From(w, world, args, s) == Run(Raised(e), [Called(args), Consulted(RequestFor(w, world, args, s, e))], s)
  {
    UnfoldStop(w, world, args, s);
  }

  /** With the budget spent, a failing call re-raises its own failure at once: one call, no consultation. */
  lemma ExhaustedPass<A, R, E>(w: Wrapper<A, R, E>, world: World<A, E>, args: A, s: Session, e: E)
    requires w.target.call(args, s.attempts) == Err(e) && s.attempts >= w.maxRetries
    ensures From(w, world, args, s) == Run(Raised(e), [Called(args)], s)
  {
    UnfoldStop(w, world, args, s);
  }

  /** Within budget, a failing call and a failing oracle end the run with the oracle's own failure. */
  lemma FaultedPass<A, R, E>(w: Wrapper<A, R, E>, world: World<A, E>, args: A, s: Session, e: E, reason: string)
    requires w.target.call(args, s.attempts) == Err(e) && s.attempts < w.maxRetries
    requires world.oracle(RequestFor(w, world, args, s, e), s.attempts) == Fault(reason)
    ensures From(w, world, args, s)
         == Run(OracleFailed(reason), [Called(args), Consulted(RequestFor(w, world, args, s, e))], s)
  {
    UnfoldStop(w, world, args, s);
  }

  /**
   * A target that always raises an `Exception` and an oracle that always
   * approves with the same delay: from session `s` the budget is spent
   * exactly, ending on a call whose failure is re-raised.
   */
  lemma {:induction false} ExhaustionFrom<A, R, E>(w: Wrapper<A, R, E>, world: World<A, E>, args: A, s: Session, delay: int)
    requires forall j :: w.target.call(args, j).Err?
    requires forall r, j :: Approves(world.oracle(r, j), delay)
    requires s.attempts <= Budget(w)
    ensures |From(w, world, args, s).events| > 0
    ensures var run := From(w, world, args, s);
      && run.final.attempts == Budget(w)
      && run.result == Raised(w.target.call(args, Budget(w)).error)
      && run.events[|run.events| - 1] == Called(args)
    decreases w.maxRetries - s.attempts
  {
    var st := Attempt(w, world, args, s);
    if s.attempts < w.maxRetries {
      var e := w.target.call(args, s.attempts).error;
      var request := RequestFor(w, world, args, s, e);
      assert Approves(world.oracle(request, s.attempts), delay);
      ApprovedPass(w, world, args, s, delay);
      var next := Advance(s, st.entry);
      UnfoldAgain(w, world, args, s);
      ExhaustionFrom(w, world, args, next, delay);
      var rest := From(w, world, args, next);
      LastOfAppend(st.events, rest.events);
    } else {
      ExhaustedPass(w, world, args, s, w.target.call(args, s.attempts).error);
    }
  }

  /** In the exhaustion scenario every scheduled retry sleeps for the approved delay when it is positive. */
  lemma {:induction false} ExhaustionSleeps<A, R, E>(w: Wrapper<A, R, E>, world: World<A, E>, args: A, s: Session, delay: int)
    requires forall j :: w.target.call(args, j).Err?
    requires forall r, j :: Approves(world.oracle(r, j), delay)
    requires s.attempts <= Budget(w)
    ensures Sleeps(From(w, world, args, s).events)
            == if delay > 0 then seq(Budget(w) - s.attempts, _ => delay as nat) else []
    decreases w.maxRetries - s.attempts
  {
    var st := Attempt(w, world, args, s);
    if s.attempts < w.maxRetries {
      var e := w.target.call(args, s.attempts).error;
      var request := RequestFor(w, world, args, s, e);
      assert Approves(world.oracle(request, s.attempts), delay);
      ApprovedPass(w, world, args, s, delay);
      var next := Advance(s, st.entry);
      UnfoldAgain(w, world, args, s);
      ExhaustionSleeps(w, world, args, next, delay);
      var rest := From(w, world, args, next);
      SleepsAppend(st.events, rest.events);
      if delay > 0 {
        assert seq(Budget(w) - s.attempts, _ => delay as nat)
            == [delay as nat] + seq(Budget(w) - next.attempts, _ => delay as nat);
      }
    } else {
      assert w.target.call(args, s.attempts).Err?;
      assert st == Stop(Raised(w.target.call(args, s.attempts).error), [Called(args)]);
      assert Sleeps(st.events) == [];
    }
  }

  /** The exhaustion scenario for a whole invocation. */
  lemma ExhaustionIsExact<A, R, E>(w: Wrapper<A, R, E>, world: World<A, E>, args: A, delay: int)
    requires forall j :: w.target.call(args, j).Err?
    requires forall r, j :: Approves(world.oracle(r, j), delay)
    ensures var run := Execute(w, world, args);
      && run.result == Raised(w.target.call(args, Budget(w)).error)
      && CallCount(run.events) == Budget(w) + 1
      && |Requests(run.events)| == Budget(w)
      && Sleeps(run.events) == (if delay > 0 then seq(Budget(w), _ => delay as nat) else [])
  {
    var s := Session(0, []);
    ExhaustionFrom(w, world, args, s, delay);
    ExhaustionSleeps(w, world, args, s, delay);
    CallAndConsultCounts(w, world, args, s);
  }
}
