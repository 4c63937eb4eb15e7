/** One `mutateAsync` call and the retry-once-on-CSRF-expiry pattern the
    submit handlers share.  The server is a script indexed by attempt
    number: attempt 0 is the first request and attempt 1 the retry, so the
    attempt number is the handler's `retryCount`. */
module Retry {
  import opened Common
  import opened AppSlice
  import opened Effects

  /** The effects of a handler and how its returned promise settles. */
  datatype Run<R> = Run(effects: seq<Effect>, outcome: Settled<R>)

  /** A handler that does not return its promise chain: it resolves
      `undefined` at once, and `unhandled` is the rejection the detached
      chain ends with, which no caller observes. */
  datatype Detached = Detached(effects: seq<Effect>, unhandled: Option<Failure>)

  /** The delay before the retry, in milliseconds. */
  const RetryDelay: nat := 500

  /** The `onError` of a mutation that has none. */
  function NoOnError(f: Failure): (r: ErrorReaction)
    ensures !r.togglesCsrf && r.thrown.None?
  {
    ErrorReaction(false, None)
  }

  /** How a settled attempt reaches the caller of `mutateAsync`: a failure
      is replaced by the error `onError` threw, if it threw one. */
  function Propagate<R>(outcome: Settled<R>, onError: Failure -> ErrorReaction): (r: Settled<R>)
    ensures outcome.Fulfilled? ==> r == outcome
    ensures outcome.Rejected? ==> r == Rejected(Propagated(outcome.failure, onError(outcome.failure)))
  {
    match outcome
    case Fulfilled(_) => outcome
    case Rejected(f) => Rejected(Propagated(f, onError(f)))
  }

  /** The effects of `onError`: the CSRF toggle when it dispatches one. */
  function ErrorEffects(r: ErrorReaction): (es: seq<Effect>)
    ensures Requests(es) == []
    ensures Dispatch(ToggleCsrfState) in es <==> r.togglesCsrf
  {
    if r.togglesCsrf then [Dispatch(ToggleCsrfState)] else []
  }

  /** One `mutateAsync(variables)`: the request, then `onSuccess` or the
      effects of `onError`. */
  function MutateAsync<R>(req: Request, outcome: Settled<R>, onError: Failure -> ErrorReaction): (r: Run<R>)
    ensures Requests(r.effects) == [req]
    ensures r.outcome == Propagate(outcome, onError)
    ensures outcome.Fulfilled? ==> r.effects == [Send(req), Callback(req)]
    ensures outcome.Rejected? ==> r.effects == [Send(req)] + ErrorEffects(onError(outcome.failure))
  {
    match outcome
    case Fulfilled(_) => Run([Send(req), Callback(req)], outcome)
    case Rejected(f) =>
      var es := [Send(req)] + ErrorEffects(onError(f));
      RequestsAppend([Send(req)], ErrorEffects(onError(f)));
      Run(es, Propagate(outcome, onError))
  }

  /** `mutateAsync(req).then(after).catch(err => retry or rethrow)`: on a
      CSRF expiry at `retryCount` 0 it waits and runs itself again with
      `retryCount` 1, returning that chain; any other failure is rethrown. */
  function Submit<R>(req: Request, server: nat -> Settled<R>, onError: Failure -> ErrorReaction,
                     after: seq<Effect>, retryCount: nat): (r: Run<R>)
    requires Requests(after) == []
    ensures Requests(r.effects) == [req] || Requests(r.effects) == [req, req]
    ensures retryCount > 0 ==> Requests(r.effects) == [req]
    ensures |Requests(r.effects)| == 2 <==>
      retryCount == 0 && Propagate(server(0), onError).Rejected? && IsCsrfExpired(Propagate(server(0), onError).failure)
    ensures r.outcome == Propagate(server(retryCount + |Requests(r.effects)| - 1), onError)
    decreases if retryCount == 0 then 1 else 0
  {
    var m := MutateAsync(req, server(retryCount), onError);
    match m.outcome
    case Fulfilled(_) =>
      RequestsAppend(m.effects, after);
      assert Requests(m.effects + after) == [req] + [];
      Run(m.effects + after, m.outcome)
    case Rejected(f) =>
      if ShouldRetry(f, retryCount) then
        var next := Submit(req, server, onError, after, retryCount + 1);
        RequestsAppend(m.effects, [Wait(RetryDelay)]);
        RequestsAppend(m.effects + [Wait(RetryDelay)], next.effects);
        assert Requests([Wait(RetryDelay)]) == [];
        assert Requests(m.effects + [Wait(RetryDelay)] + next.effects) == [req] + [] + [req];
        assert next.outcome == Propagate(server(retryCount + 1), onError);
        Run(m.effects + [Wait(RetryDelay)] + next.effects, next.outcome)
      else m
  }

  /** With the shared strict `onError`, exactly the server's CSRF literal at
      the first attempt causes the second request. */
  lemma RetryOnlyOnCsrfLiteral<R>(req: Request, server: nat -> Settled<R>, after: seq<Effect>)
    requires Requests(after) == []
    ensures var r := Submit(req, server, CsrfOnError, after, 0);
      Requests(r.effects) == [req, req] <==> server(0).Rejected? && IsCsrfExpired(server(0).failure)
  {
    if server(0).Rejected? {
      CsrfSurvivesOnError(server(0).failure);
    }
  }

  /** An attempt that succeeds: one request, its callback, the `then`
      effects and the server's value. */
  lemma SucceedsAtOnce<R>(req: Request, server: nat -> Settled<R>, onError: Failure -> ErrorReaction,
                          after: seq<Effect>, retryCount: nat, v: R)
    requires Requests(after) == []
    requires server(retryCount) == Fulfilled(v)
    ensures Submit(req, server, onError, after, retryCount) == Run([Send(req), Callback(req)] + after, Fulfilled(v))
  {
    assert MutateAsync(req, server(retryCount), onError) == Run([Send(req), Callback(req)], Fulfilled(v));
  }

  /** A first attempt that fails with the CSRF literal and a retry that
      succeeds: toggle, wait, resend, and the retry's value. */
  lemma {:induction false} SucceedsAfterOneCsrfFailure<R>(req: Request, server: nat -> Settled<R>,
                                                          after: seq<Effect>, v: R)
    requires Requests(after) == []
    requires server(0).Rejected? && IsCsrfExpired(server(0).failure)
    requires server(1) == Fulfilled(v)
    ensures Submit(req, server, CsrfOnError, after, 0) ==
      Run([Send(req), Dispatch(ToggleCsrfState), Wait(RetryDelay), Send(req), Callback(req)] + after, Fulfilled(v))
  {
    var f := server(0).failure;
    assert CsrfOnError(f) == ErrorReaction(true, Some(f));
    var m := MutateAsync(req, server(0), CsrfOnError);
    assert m == Run([Send(req), Dispatch(ToggleCsrfState)], Rejected(f));
    SucceedsAtOnce(req, server, CsrfOnError, after, 1, v);
    assert [Send(req), Dispatch(ToggleCsrfState)] + [Wait(RetryDelay)] + ([Send(req), Callback(req)] + after)
        == [Send(req), Dispatch(ToggleCsrfState), Wait(RetryDelay), Send(req), Callback(req)] + after;
  }

  /** A first failure other than the CSRF literal reaches the caller
      unchanged, after one request. */
  lemma OtherFailurePropagates<R>(req: Request, server: nat -> Settled<R>, after: seq<Effect>, f: Failure)
    requires Requests(after) == []
    requires server(0) == Rejected(f) && f.response.Some? && !IsCsrfExpired(f)
    ensures var r := Submit(req, server, CsrfOnError, after, 0);
      r.outcome == Rejected(f) && Requests(r.effects) == [req]
  {
  }

  /** The detached form of a chain: the handler resolves at once and the
      chain's rejection, if any, is unobserved. */
  function Detach<R>(r: Run<R>): (d: Detached)
    ensures d.effects == r.effects
    ensures d.unhandled.Some? <==> r.outcome.Rejected?
    ensures d.unhandled.Some? ==> d.unhandled.value == r.outcome.failure
  {
    Detached(r.effects, if r.outcome.Rejected? then Some(r.outcome.failure) else None)
  }
}
