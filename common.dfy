/** Values shared by every hook: optional values, the shape of an axios
    failure, how a promise settles, and the two server literals the client
    reacts to. */
module Common {

  datatype Option<+T> = None | Some(value: T)

  function Get<K, V>(m: map<K, V>, k: K): (r: Option<V>)
    ensures r.Some? <==> k in m
    ensures r.Some? ==> r.value == m[k]
  {
    if k in m then Some(m[k]) else None
  }

  /** `setQueryData(key, updater)`: when the updater returns `undefined`
      (here `None`) the entry is not written at all. */
  function SetQueryData<K(!new), V>(m: map<K, V>, k: K, v: Option<V>): (r: map<K, V>)
    ensures v.None? ==> r == m
    ensures v.Some? ==> k in r && r[k] == v.value
    ensures forall k' :: k' != k ==> Get(r, k') == Get(m, k')
  {
    if v.Some? then m[k := v.value] else m
  }

  /** JavaScript `undefined`, the value an async function without a
      `return` resolves to. */
  datatype Void = Undefined

  /** `err.response.data` of an axios error; `detail` is `None` when the
      body has no string `detail`. */
  datatype ResponseData = ResponseData(detail: Option<string>)

  /** A rejected promise's reason: `response` is `None` for a network
      failure or for any error that is not an axios response error;
      `errorType` is the ad-hoc `error.type` property. */
  datatype Failure = Failure(response: Option<ResponseData>, message: string, errorType: Option<string>)

  /** How a promise settles. */
  datatype Settled<+T> = Fulfilled(value: T) | Rejected(failure: Failure)

  /** The anti-forgery token expiry literal, with its final period. */
  const CsrfExpired: string := "The CSRF token has expired."

  /** The session expiry literal, without a final period. */
  const JwtExpired: string := "The JWT has expired"

  /** The error a handler throws when it reads `err.response.data` of an
      error that has no `response`. */
  const TypeErrorFailure: Failure :=
    Failure(None, "Cannot read properties of undefined (reading 'data')", None)

  /** `err.response?.data?.detail`: never throws. */
  function OptionalDetail(f: Failure): (r: Option<string>)
    ensures r.Some? ==> f.response.Some? && f.response.value.detail == r
  {
    match f.response
    case None => None
    case Some(data) => data.detail
  }

  /** `err.response.data.detail`: throws a TypeError (`None` here) when the
      error has no response. */
  function StrictDetail(f: Failure): (r: Option<Option<string>>)
    ensures r.None? <==> f.response.None?
    ensures r.Some? ==> r.value == OptionalDetail(f)
  {
    match f.response
    case None => None
    case Some(data) => Some(data.detail)
  }

  /** `err.response?.data?.detail === 'The CSRF token has expired.'`. */
  predicate IsCsrfExpired(f: Failure)
  {
    OptionalDetail(f) == Some(CsrfExpired)
  }

  /** The guard every submit handler puts in front of its single retry. */
  predicate ShouldRetry(f: Failure, retryCount: nat)
  {
    IsCsrfExpired(f) && retryCount == 0
  }

  /** What a mutation's `onError` callback does with an error: whether it
      dispatches `toggleCsrfState()`, and the error that leaves the callback
      (`None` when the callback returns normally). */
  datatype ErrorReaction = ErrorReaction(togglesCsrf: bool, thrown: Option<Failure>)

  /** The `onError` shared by the like, create-comment, create-post,
      delete-post, login and register mutations:
      `if (err.response.data.detail === CSRF) dispatch(toggleCsrfState()); throw err;`
      The non-optional property access throws a TypeError first when the
      error has no response. */
  function CsrfOnError(f: Failure): (r: ErrorReaction)
    ensures r.thrown.Some?
    ensures r.togglesCsrf <==> IsCsrfExpired(f)
    ensures f.response.Some? ==> r.thrown == Some(f)
    ensures f.response.None? ==> r.thrown == Some(TypeErrorFailure)
  {
    match StrictDetail(f)
    case None => ErrorReaction(false, Some(TypeErrorFailure))
    case Some(detail) => ErrorReaction(detail == Some(CsrfExpired), Some(f))
  }

  /** The error the caller of `mutateAsync` sees after `onError` ran: the
      one `onError` threw, or the original one when it returned. */
  function Propagated(f: Failure, r: ErrorReaction): Failure
  {
    if r.thrown.Some? then r.thrown.value else f
  }

  /** A literal that differs from the CSRF literal never counts as expiry. */
  lemma OnlyExactLiteralIsCsrf(f: Failure, d: string)
    requires f.response == Some(ResponseData(Some(d)))
    ensures IsCsrfExpired(f) <==> d == CsrfExpired
  {
  }

  /** The TypeError thrown for a response-less error is never itself a
      CSRF expiry, so it cannot start a retry. */
  lemma TypeErrorNeverRetries(retryCount: nat)
    ensures !ShouldRetry(TypeErrorFailure, retryCount)
  {
  }

  /** What `mutateAsync` rejects with after `CsrfOnError` is a CSRF expiry
      exactly when the server's error was one. */
  lemma CsrfSurvivesOnError(f: Failure)
    ensures IsCsrfExpired(Propagated(f, CsrfOnError(f))) <==> IsCsrfExpired(f)
  {
  }
}
