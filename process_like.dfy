/** The like button's handler: one retry on CSRF expiry, then the
    session-expiry handling and a log line.  The handler does not return
    its chain; the catch handler rethrows nothing, but its strict read of
    `err.response.data.detail` throws for an error without a response. */
module ProcessLike {
  import opened Common
  import opened AppSlice
  import opened Posts
  import opened Effects
  import opened Retry

  /** The catch handler's steps after the retry check, as written: a
      strict read of the detail, `dispatch(logoutUser)` and navigation to
      `/login` on the session-expiry literal, then `console.error`. */
  function LikeCatchAsWritten(f: Failure): (r: Detached)
    ensures Requests(r.effects) == []
    ensures r.unhandled.Some? <==> f.response.None?
    ensures f.response.None? ==> r == Detached([], Some(TypeErrorFailure))
    ensures f.response.Some? && OptionalDetail(f) == Some(JwtExpired) ==>
      r.effects == [DispatchLogoutCreator, Navigate("/login", false), ConsoleError]
    ensures f.response.Some? && OptionalDetail(f) != Some(JwtExpired) ==> r.effects == [ConsoleError]
  {
    match StrictDetail(f)
    case None => Detached([], Some(TypeErrorFailure))
    case Some(detail) =>
      if detail == Some(JwtExpired) then Detached([DispatchLogoutCreator, Navigate("/login", false), ConsoleError], None)
      else Detached([ConsoleError], None)
  }

  /** `handleLikeToggle` as written. */
  function LikeToggle(postId: string, server: nat -> Settled<LikeResult>, retryCount: nat): (r: Detached)
    ensures Requests(r.effects) == [ToggleLike(postId)] || Requests(r.effects) == [ToggleLike(postId), ToggleLike(postId)]
    ensures retryCount > 0 ==> Requests(r.effects) == [ToggleLike(postId)]
    ensures |Requests(r.effects)| == 2 <==>
      retryCount == 0 && server(0).Rejected? && IsCsrfExpired(server(0).failure)
    decreases if retryCount == 0 then 1 else 0
  {
    var m := MutateAsync(ToggleLike(postId), server(retryCount), CsrfOnError);
    match m.outcome
    case Fulfilled(_) => Detached(m.effects, None)
    case Rejected(f) =>
      CsrfSurvivesOnError(server(retryCount).failure);
      if ShouldRetry(f, retryCount) then
        var next := LikeToggle(postId, server, retryCount + 1);
        RequestsAppend(m.effects, [Wait(RetryDelay)]);
        RequestsAppend(m.effects + [Wait(RetryDelay)], next.effects);
        Detached(m.effects + [Wait(RetryDelay)] + next.effects, next.unhandled)
      else
        var c := LikeCatchAsWritten(f);
        RequestsAppend(m.effects, c.effects);
        Detached(m.effects + c.effects, c.unhandled)
  }

  /** A first failure with a response and any detail but the CSRF literal
      goes straight to the catch handler, after one request. */
  lemma OtherFailureCaught(postId: string, server: nat -> Settled<LikeResult>, f: Failure)
    requires server(0) == Rejected(f) && f.response.Some? && !IsCsrfExpired(f)
    ensures LikeToggle(postId, server, 0) == Detached([Send(ToggleLike(postId))] + LikeCatchAsWritten(f).effects, None)
  {
    assert MutateAsync(ToggleLike(postId), server(0), CsrfOnError) == Run([Send(ToggleLike(postId))], Rejected(f));
  }

  /** A server session expiry leaves the store's sign-in state as it was:
      the dispatched action creator is run as a thunk and its action is
      dropped. */
  lemma {:induction false} JwtExpiryKeepsUserSignedIn(postId: string, server: nat -> Settled<LikeResult>, f: Failure, s: AppState)
    requires server(0) == Rejected(f) && f.response == Some(ResponseData(Some(JwtExpired)))
    ensures var r := LikeToggle(postId, server, 0);
      DispatchLogoutCreator in r.effects && Navigate("/login", false) in r.effects
      && ApplyDispatches(s, r.effects) == s
  {
    assert !IsCsrfExpired(f) by {
      assert JwtExpired[4] != CsrfExpired[4];
    }
    OtherFailureCaught(postId, server, f);
    var es := [Send(ToggleLike(postId)), DispatchLogoutCreator, Navigate("/login", false), ConsoleError];
    assert LikeToggle(postId, server, 0).effects == es;
    NoDispatchKeepsState(s, es);
  }

  /** A network failure makes the catch handler itself throw: the
      mutation's strict `onError` turns it into a TypeError, and the catch
      handler's strict read throws again, so `console.error` never runs. */
  lemma NetworkFailureEscapes(postId: string, server: nat -> Settled<LikeResult>, f: Failure)
    requires server(0) == Rejected(f) && f.response.None?
    ensures var r := LikeToggle(postId, server, 0);
      r.unhandled == Some(TypeErrorFailure) && ConsoleError !in r.effects
  {
    assert LikeToggle(postId, server, 0).effects == [Send(ToggleLike(postId))];
  }

  /** The catch handler with an optional read and the action dispatched:
      every error ends in `console.error` and a session expiry signs the
      user out. */
  function LikeCatch(f: Failure): (r: Detached)
    ensures r.unhandled.None?
    ensures Requests(r.effects) == []
    ensures |r.effects| > 0 && r.effects[|r.effects| - 1] == ConsoleError
    ensures OptionalDetail(f) == Some(JwtExpired) ==>
      r.effects == [Dispatch(LogoutUser), Navigate("/login", false), ConsoleError]
    ensures OptionalDetail(f) != Some(JwtExpired) ==> r.effects == [ConsoleError]
  {
    if OptionalDetail(f) == Some(JwtExpired) then Detached([Dispatch(LogoutUser), Navigate("/login", false), ConsoleError], None)
    else Detached([ConsoleError], None)
  }

  /** `handleLikeToggle` with the intended catch handler. */
  function LikeToggleIntended(postId: string, server: nat -> Settled<LikeResult>, retryCount: nat): (r: Detached)
    ensures r.unhandled.None?
    ensures Requests(r.effects) == [ToggleLike(postId)] || Requests(r.effects) == [ToggleLike(postId), ToggleLike(postId)]
    ensures |Requests(r.effects)| == 2 <==>
      retryCount == 0 && server(0).Rejected? && IsCsrfExpired(server(0).failure)
    decreases if retryCount == 0 then 1 else 0
  {
    var m := MutateAsync(ToggleLike(postId), server(retryCount), CsrfOnError);
    match m.outcome
    case Fulfilled(_) => Detached(m.effects, None)
    case Rejected(f) =>
      CsrfSurvivesOnError(server(retryCount).failure);
      if ShouldRetry(f, retryCount) then
        var next := LikeToggleIntended(postId, server, retryCount + 1);
        RequestsAppend(m.effects, [Wait(RetryDelay)]);
        RequestsAppend(m.effects + [Wait(RetryDelay)], next.effects);
        Detached(m.effects + [Wait(RetryDelay)] + next.effects, next.unhandled)
      else
        var c := LikeCatch(f);
        RequestsAppend(m.effects, c.effects);
        Detached(m.effects + c.effects, c.unhandled)
  }

  /** With the intended handler too, a failure other than the CSRF literal
      goes straight to the catch handler. */
  lemma OtherFailureCaughtIntended(postId: string, server: nat -> Settled<LikeResult>, f: Failure)
    requires server(0) == Rejected(f) && f.response.Some? && !IsCsrfExpired(f)
    ensures LikeToggleIntended(postId, server, 0) == Detached([Send(ToggleLike(postId))] + LikeCatch(f).effects, None)
  {
    assert MutateAsync(ToggleLike(postId), server(0), CsrfOnError) == Run([Send(ToggleLike(postId))], Rejected(f));
  }

  /** With the intended handler a session expiry signs the user out. */
  lemma {:induction false} JwtExpirySignsOut(postId: string, server: nat -> Settled<LikeResult>, f: Failure, s: AppState)
    requires server(0) == Rejected(f) && f.response == Some(ResponseData(Some(JwtExpired)))
    ensures var t := ApplyDispatches(s, LikeToggleIntended(postId, server, 0).effects);
      !t.isAuthenticated && t.user.None?
  {
    assert !IsCsrfExpired(f) by {
      assert JwtExpired[4] != CsrfExpired[4];
    }
    OtherFailureCaughtIntended(postId, server, f);
    assert LikeCatch(f).effects == [Dispatch(LogoutUser)] + [Navigate("/login", false), ConsoleError];
    OneDispatch(s, [Send(ToggleLike(postId))], LogoutUser, [Navigate("/login", false), ConsoleError]);
  }
}
