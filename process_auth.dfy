/** The authentication handlers: the availability check that never
    rejects, the check-register-login chain, login with one retry on CSRF
    expiry, and logout followed by cache removal. */
module ProcessAuth {
  import opened Common
  import opened QueryCache
  import opened Effects
  import opened Retry

  /** The body of the availability endpoint: `{ is_available, message }`. */
  datatype CheckResponse = CheckResponse(isAvailable: bool, message: string)

  /** The body of the login endpoint, of which the client reads `username`. */
  datatype LoginResponse = LoginResponse(username: string)

  /** What `checkUsernameAvailability` resolves to: `{ isAvailable, message }`
      or `{ error }`. */
  datatype CheckResult = Checked(isAvailable: bool, message: string) | CheckFailed(error: string)

  /** The check mutation has no `onError`, so its caller sees the server's
      error; the function catches it and resolves either way. */
  function CheckUsernameAvailability(username: string, outcome: Settled<CheckResponse>): (r: CheckResult)
    ensures r.Checked? <==> outcome.Fulfilled?
    ensures outcome.Fulfilled? ==> r == Checked(outcome.value.isAvailable, outcome.value.message)
    ensures outcome.Rejected? ==> r == CheckFailed(outcome.failure.message)
  {
    match MutateAsync(CheckUsername(username), outcome, NoOnError).outcome
    case Fulfilled(res) => Checked(res.isAvailable, res.message)
    case Rejected(f) => CheckFailed(f.message)
  }

  /** The `Error` thrown when the name is taken, with its `type` tag. */
  const UsernameUnavailable: Failure :=
    Failure(None, "このユーザー名は既に使用されています", Some("USERNAME_UNAVAILABLE"))

  /** `handleRegisterSubmit`: check the name, then register, then log in
      with the same credentials; each step runs only after the previous one
      resolved, and the first failure rejects the whole chain. */
  function RegisterSubmit(username: string, password: string, check: Settled<CheckResponse>,
                          register: Settled<()>, login: Settled<LoginResponse>): (r: Run<Void>)
    ensures check.Rejected? ==> r.outcome == Rejected(check.failure) && Requests(r.effects) == [CheckUsername(username)]
    ensures check.Fulfilled? && !check.value.isAvailable ==>
      r.outcome == Rejected(UsernameUnavailable) && Requests(r.effects) == [CheckUsername(username)]
    ensures check.Fulfilled? && check.value.isAvailable && register.Rejected? ==>
      Requests(r.effects) == [CheckUsername(username), Register(username, password)]
    ensures check.Fulfilled? && check.value.isAvailable && register.Fulfilled? ==>
      Requests(r.effects) == [CheckUsername(username), Register(username, password), Login(username, password)]
    ensures r.outcome.Fulfilled? <==>
      check.Fulfilled? && check.value.isAvailable && register.Fulfilled? && login.Fulfilled?
  {
    var c := MutateAsync(CheckUsername(username), check, NoOnError);
    match c.outcome
    case Rejected(f) => Run(c.effects, Rejected(f))
    case Fulfilled(res) =>
      if !res.isAvailable then Run(c.effects, Rejected(UsernameUnavailable))
      else
        var t := RegisterThenLogin(username, password, register, login);
        RequestsAppend(c.effects, t.effects);
        Run(c.effects + t.effects, t.outcome)
  }

  /** The chain's last two links: register, then log in once registered. */
  function RegisterThenLogin(username: string, password: string, register: Settled<()>,
                             login: Settled<LoginResponse>): (r: Run<Void>)
    ensures register.Rejected? ==> Requests(r.effects) == [Register(username, password)]
    ensures register.Fulfilled? ==> Requests(r.effects) == [Register(username, password), Login(username, password)]
    ensures r.outcome.Fulfilled? <==> register.Fulfilled? && login.Fulfilled?
  {
    var g := MutateAsync(Register(username, password), register, CsrfOnError);
    match g.outcome
    case Rejected(f) => Run(g.effects, Rejected(f))
    case Fulfilled(_) =>
      var l := MutateAsync(Login(username, password), login, CsrfOnError);
      RequestsAppend(g.effects, l.effects);
      match l.outcome
      case Rejected(f) => Run(g.effects + l.effects, Rejected(f))
      case Fulfilled(_) => Run(g.effects + l.effects, Fulfilled(Undefined))
  }

  /** A taken name never reaches the register endpoint. */
  lemma TakenNameNeverRegisters(username: string, password: string, check: Settled<CheckResponse>,
                                register: Settled<()>, login: Settled<LoginResponse>)
    requires check.Fulfilled? && !check.value.isAvailable
    ensures Register(username, password) !in Requests(RegisterSubmit(username, password, check, register, login).effects)
    ensures RegisterSubmit(username, password, check, register, login).outcome.failure.errorType == Some("USERNAME_UNAVAILABLE")
  {
  }

  /** `handleLoginSubmit`: the login chain with one retry on CSRF expiry;
      the chain is returned, so the caller sees the last attempt's result. */
  function LoginSubmit(username: string, password: string, server: nat -> Settled<LoginResponse>,
                       retryCount: nat): (r: Run<LoginResponse>)
    ensures Requests(r.effects) == [Login(username, password)]
         || Requests(r.effects) == [Login(username, password), Login(username, password)]
    ensures |Requests(r.effects)| == 2 <==>
      retryCount == 0 && server(0).Rejected? && IsCsrfExpired(server(0).failure)
    ensures r.outcome == Propagate(server(retryCount + |Requests(r.effects)| - 1), CsrfOnError)
  {
    if retryCount == 0 then
      RetryOnlyOnCsrfLiteral(Login(username, password), server, []);
      Submit(Login(username, password), server, CsrfOnError, [], retryCount)
    else Submit(Login(username, password), server, CsrfOnError, [], retryCount)
  }

  /** A failed retry, or any failure other than the CSRF literal, reaches
      the caller unchanged. */
  lemma LoginFailurePropagates(username: string, password: string, server: nat -> Settled<LoginResponse>,
                               retryCount: nat)
    requires server(retryCount).Rejected? && server(retryCount).failure.response.Some?
    requires retryCount > 0 || !IsCsrfExpired(server(retryCount).failure)
    ensures LoginSubmit(username, password, server, retryCount).outcome == server(retryCount)
  {
  }

  /** The literal the logout `onError` compares with: the CSRF literal
      without its final period. */
  const CsrfExpiredNoPeriod: string := "The CSRF token has expired"

  /** `onError` of the logout mutation as written: the alert's strict read
      throws a TypeError for an error without a response; otherwise the
      flag is toggled on the period-less literal and the error is not
      rethrown. */
  function LogoutOnErrorAsWritten(f: Failure): (r: ErrorReaction)
    ensures f.response.None? ==> r == ErrorReaction(false, Some(TypeErrorFailure))
    ensures f.response.Some? ==> r.thrown.None? && (r.togglesCsrf <==> OptionalDetail(f) == Some(CsrfExpiredNoPeriod))
  {
    match StrictDetail(f)
    case None => ErrorReaction(false, Some(TypeErrorFailure))
    case Some(detail) => ErrorReaction(detail == Some(CsrfExpiredNoPeriod), None)
  }

  /** The server's CSRF expiry never toggles the flag on logout. */
  lemma LogoutMissesCsrfExpiry(f: Failure)
    requires IsCsrfExpired(f)
    ensures !LogoutOnErrorAsWritten(f).togglesCsrf
  {
    assert CsrfExpired[|CsrfExpiredNoPeriod|] == '.';
  }

  /** `onError` of the logout mutation comparing with the CSRF literal the
      server sends. */
  function LogoutOnError(f: Failure): (r: ErrorReaction)
    ensures f.response.None? ==> r == ErrorReaction(false, Some(TypeErrorFailure))
    ensures f.response.Some? ==> r.thrown.None? && (r.togglesCsrf <==> IsCsrfExpired(f))
  {
    match StrictDetail(f)
    case None => ErrorReaction(false, Some(TypeErrorFailure))
    case Some(detail) => ErrorReaction(detail == Some(CsrfExpired), None)
  }

  /** The effects `logout` has once the logout mutation resolved. */
  const LogoutCleanup: seq<Effect> := [
    RemoveQueries([Str("posts")]), RemoveQueries([Str("user")]), RemoveQueries([Str("single")]),
    Navigate("/login", false)]

  /** `logout`: the removals and the navigation follow the awaited logout
      mutation, so a failed logout removes nothing. */
  function LogoutFlow(outcome: Settled<()>): (r: Run<Void>)
    ensures outcome.Fulfilled? ==> r.effects == [Send(Logout), Callback(Logout)] + LogoutCleanup
    ensures outcome.Fulfilled? <==> r.outcome.Fulfilled?
    ensures outcome.Rejected? ==> forall k :: RemoveQueries(k) !in r.effects
    ensures Requests(r.effects) == [Logout]
  {
    var m := MutateAsync(Logout, outcome, LogoutOnErrorAsWritten);
    match m.outcome
    case Rejected(f) => Run(m.effects, Rejected(f))
    case Fulfilled(_) =>
      RequestsAppend(m.effects, LogoutCleanup);
      Run(m.effects + LogoutCleanup, Fulfilled(Undefined))
  }
}
