/** The requests the hooks send and the observable effects of a handler:
    requests, `dispatch` calls, delays, navigation, cache removals and log
    output, in the order they happen. */
module Effects {
  import opened Common
  import opened Posts
  import opened AppSlice
  import opened QueryCache

  /** What a mutation function sends. */
  datatype Request =
    | ToggleLike(postId: string)
    | CreateComment(postId: string, comment: string)
    | DeleteComment(postId: string, commentId: string)
    | CreatePost(variables: CreateVariables)
    | UpdatePost(postId: string, body: PostPayload)
    | DeletePost(postId: string)
    | CheckUsername(username: string)
    | Register(username: string, password: string)
    | Login(username: string, password: string)
    | Logout

  datatype Effect =
    | Send(request: Request)
      /** The mutation's `onSuccess` ran for this request. */
    | Callback(request: Request)
    | Dispatch(action: Action)
      /** `dispatch(logoutUser)`: the action creator itself, not an action. */
    | DispatchLogoutCreator
    | Wait(ms: nat)
    | Navigate(path: string, replace: bool)
    | RemoveQueries(key: seq<KeyPart>)
    | ConsoleError

  /** The requests among the effects, in order. */
  function Requests(es: seq<Effect>): (r: seq<Request>)
    ensures |r| <= |es|
  {
    if es == [] then []
    else if es[0].Send? then [es[0].request] + Requests(es[1..])
    else Requests(es[1..])
  }

  /** A request is among the requests exactly when it was sent. */
  lemma {:induction false} RequestsMembers(es: seq<Effect>)
    ensures forall q :: q in Requests(es) <==> Send(q) in es
  {
    if es != [] {
      RequestsMembers(es[1..]);
      assert forall e :: e in es <==> e == es[0] || e in es[1..];
    }
  }

  lemma {:induction false} RequestsAppend(a: seq<Effect>, b: seq<Effect>)
    ensures Requests(a + b) == Requests(a) + Requests(b)
  {
    if a == [] {
      assert a + b == b;
    } else {
      assert (a + b)[0] == a[0] && (a + b)[1..] == a[1..] + b;
      RequestsAppend(a[1..], b);
    }
  }

  /** The store after the effects' dispatches.  With the thunk middleware a
      dispatched function is called rather than reduced, and the action the
      creator returns is dropped, so `DispatchLogoutCreator` leaves the
      state as it was. */
  function ApplyDispatches(s: AppState, es: seq<Effect>): (r: AppState)
    ensures r.editedPost == s.editedPost
    ensures SignedInHasUser(s) && DispatchesNameUsers(es) ==> SignedInHasUser(r)
    decreases |es|
  {
    if es == [] then s
    else
      var next := if es[0].Dispatch? then Reduce(s, es[0].action) else s;
      ApplyDispatches(next, es[1..])
  }

  /** Every action the trace dispatches that signs in carries a username. */
  predicate DispatchesNameUsers(es: seq<Effect>)
  {
    forall i :: 0 <= i < |es| && es[i].Dispatch? ==> NamesUser(es[i].action)
  }

  /** A request list made of one request, once or twice, holds nothing
      else. */
  lemma OnlyRequest(qs: seq<Request>, req: Request)
    requires qs == [req] || qs == [req, req]
    ensures forall q :: q in qs ==> q == req
  {
  }

  /** Effects that dispatch no action leave the store as it was. */
  lemma {:induction false} NoDispatchKeepsState(s: AppState, es: seq<Effect>)
    requires forall i :: 0 <= i < |es| ==> !es[i].Dispatch?
    ensures ApplyDispatches(s, es) == s
    decreases |es|
  {
    if es != [] {
      NoDispatchKeepsState(s, es[1..]);
    }
  }

  lemma {:induction false} ApplyDispatchesAppend(s: AppState, a: seq<Effect>, b: seq<Effect>)
    ensures ApplyDispatches(s, a + b) == ApplyDispatches(ApplyDispatches(s, a), b)
    decreases |a|
  {
    if a == [] {
      assert a + b == b;
    } else {
      assert (a + b)[0] == a[0] && (a + b)[1..] == a[1..] + b;
      ApplyDispatchesAppend(if a[0].Dispatch? then Reduce(s, a[0].action) else s, a[1..], b);
    }
  }

  /** A list whose single dispatch is of `a` leaves the store as `a`
      alone does. */
  lemma OneDispatch(s: AppState, before: seq<Effect>, a: Action, after: seq<Effect>)
    requires forall i :: 0 <= i < |before| ==> !before[i].Dispatch?
    requires forall i :: 0 <= i < |after| ==> !after[i].Dispatch?
    ensures ApplyDispatches(s, before + ([Dispatch(a)] + after)) == Reduce(s, a)
  {
    ApplyDispatchesAppend(s, before, [Dispatch(a)] + after);
    ApplyDispatchesAppend(s, [Dispatch(a)], after);
    NoDispatchKeepsState(s, before);
    NoDispatchKeepsState(Reduce(s, a), after);
    assert ApplyDispatches(s, [Dispatch(a)]) == ApplyDispatches(Reduce(s, a), []);
  }

}
