/** The `app` slice of the Redux store: the post being edited, the CSRF
    refresh flag and the authentication state, with the three reducers and
    the three cases of the `fetchAuthUser` thunk. */
module AppSlice {
  import opened Common

  datatype EditedPost = EditedPost(
    id: string, category: string, title: string, description: string,
    recommend1: string, recommend2: string, recommend3: string)

  /** `state.error`: `null` initially, `undefined` after the thunk starts
      or succeeds, the rejection's message after it fails. */
  datatype ErrorField = NullError | UndefinedError | ErrorMessage(message: string)

  /** `user` is `None` when it is `null` or `undefined`. */
  datatype AppState = AppState(
    editedPost: EditedPost, csrfTokenExp: bool, isAuthenticated: bool,
    user: Option<string>, isAuthLoading: bool, error: ErrorField)

  const InitialState: AppState :=
    AppState(EditedPost("", "", "", "", "", "", ""), false, false, None, true, NullError)

  /** The actions the slice handles.  The reducers store what arrives, so
      each payload value is `None` when it is `undefined`: the login's
      `res.data.username`, the thunk's `payload.username` and the
      rejection's `error.message`. */
  datatype Action =
    | ToggleCsrfState
    | SetLoggedInUser(payload: Option<string>)
    | LogoutUser
    | AuthPending
    | AuthFulfilled(username: Option<string>)
    | AuthRejected(message: Option<string>)

  /** An action that signs in carries a defined username. */
  predicate NamesUser(a: Action)
  {
    (a.SetLoggedInUser? ==> a.payload.Some?) && (a.AuthFulfilled? ==> a.username.Some?)
  }

  /** `state.error = action.error.message`. */
  function ErrorOf(message: Option<string>): (e: ErrorField)
    ensures message.None? <==> e == UndefinedError
    ensures message.Some? ==> e == ErrorMessage(message.value)
  {
    match message
    case None => UndefinedError
    case Some(m) => ErrorMessage(m)
  }

  /** The slice reducer. */
  function Reduce(s: AppState, a: Action): (r: AppState)
    ensures r.editedPost == s.editedPost
    ensures SignedInHasUser(s) && NamesUser(a) ==> SignedInHasUser(r)
  {
    match a
    case ToggleCsrfState => s.(csrfTokenExp := !s.csrfTokenExp)
    case SetLoggedInUser(u) => s.(isAuthenticated := true, user := u)
    case LogoutUser => s.(isAuthenticated := false, user := None)
    case AuthPending => s.(isAuthLoading := true, error := UndefinedError)
    case AuthFulfilled(u) => s.(isAuthLoading := false, isAuthenticated := true, user := u, error := UndefinedError)
    case AuthRejected(m) => s.(isAuthLoading := false, isAuthenticated := false, error := ErrorOf(m))
  }

  /** The state after a sequence of actions, first action first. */
  function ReduceAll(s: AppState, actions: seq<Action>): AppState
    decreases |actions|
  {
    if actions == [] then s else ReduceAll(Reduce(s, actions[0]), actions[1..])
  }

  /** The flag toggle flips `csrfTokenExp` and nothing else, so two toggles
      restore the state. */
  lemma ToggleFlipsFlagOnly(s: AppState)
    ensures Reduce(s, ToggleCsrfState).csrfTokenExp == !s.csrfTokenExp
    ensures Reduce(s, ToggleCsrfState).(csrfTokenExp := s.csrfTokenExp) == s
    ensures Reduce(Reduce(s, ToggleCsrfState), ToggleCsrfState) == s
  {
  }

  /** `setLoggedInUser` signs the user in and touches nothing else. */
  lemma SetLoggedInUserFields(s: AppState, u: Option<string>)
    ensures var r := Reduce(s, SetLoggedInUser(u));
      r.isAuthenticated && r.user == u
      && r.csrfTokenExp == s.csrfTokenExp && r.isAuthLoading == s.isAuthLoading && r.error == s.error
  {
  }

  /** `logoutUser` signs the user out and leaves the loading flag, the CSRF
      flag and the error alone. */
  lemma LogoutUserFields(s: AppState)
    ensures var r := Reduce(s, LogoutUser);
      !r.isAuthenticated && r.user.None?
      && r.csrfTokenExp == s.csrfTokenExp && r.isAuthLoading == s.isAuthLoading && r.error == s.error
  {
  }

  /** The three cases of `fetchAuthUser`; a rejection keeps the user the
      state had. */
  lemma AuthThunkFields(s: AppState, u: Option<string>, m: Option<string>)
    ensures var r := Reduce(s, AuthPending);
      r.isAuthLoading && r.error == UndefinedError
      && r.isAuthenticated == s.isAuthenticated && r.user == s.user && r.csrfTokenExp == s.csrfTokenExp
    ensures var r := Reduce(s, AuthFulfilled(u));
      !r.isAuthLoading && r.isAuthenticated && r.user == u && r.error == UndefinedError
      && r.csrfTokenExp == s.csrfTokenExp
    ensures var r := Reduce(s, AuthRejected(m));
      !r.isAuthLoading && !r.isAuthenticated && r.user == s.user && r.csrfTokenExp == s.csrfTokenExp
      && (m.Some? ==> r.error == ErrorMessage(m.value)) && (m.None? ==> r.error == UndefinedError)
  {
  }

  /** No sequence of actions writes `editedPost`. */
  lemma {:induction false} EditedPostNeverWritten(s: AppState, actions: seq<Action>)
    ensures ReduceAll(s, actions).editedPost == s.editedPost
    decreases |actions|
  {
    if actions != [] {
      EditedPostNeverWritten(Reduce(s, actions[0]), actions[1..]);
    }
  }

  /** A signed-in state names a user. */
  predicate SignedInHasUser(s: AppState)
  {
    s.isAuthenticated ==> s.user.Some?
  }

  /** Actions whose sign-ins all carry a username keep a signed-in state
      naming a user. */
  lemma {:induction false} SignedInHasUserPreserved(s: AppState, actions: seq<Action>)
    requires SignedInHasUser(s)
    requires forall i :: 0 <= i < |actions| ==> NamesUser(actions[i])
    ensures SignedInHasUser(ReduceAll(s, actions))
    decreases |actions|
  {
    if actions != [] {
      SignedInHasUserPreserved(Reduce(s, actions[0]), actions[1..]);
    }
  }

  /** A sign-in with an `undefined` username, from either action, leaves
      the store signed in with no user. */
  lemma UndefinedUsernameSignsInWithoutUser(s: AppState)
    ensures var r := Reduce(s, SetLoggedInUser(None)); r.isAuthenticated && r.user.None?
    ensures var r := Reduce(s, AuthFulfilled(None)); r.isAuthenticated && r.user.None?
    ensures !NamesUser(SetLoggedInUser(None)) && !NamesUser(AuthFulfilled(None))
  {
  }

  lemma InitialStateSignedOut()
    ensures SignedInHasUser(InitialState)
    ensures !InitialState.isAuthenticated && InitialState.isAuthLoading && InitialState.user.None?
    ensures !InitialState.csrfTokenExp && InitialState.error == NullError
  {
  }

  /** The slice as the store holds it: each reducer assigns the fields it
      names in place. */
  class AppStore {
    var editedPost: EditedPost
    var csrfTokenExp: bool
    var isAuthenticated: bool
    var user: Option<string>
    var isAuthLoading: bool
    var error: ErrorField

    function State(): AppState
      reads this
    {
      AppState(editedPost, csrfTokenExp, isAuthenticated, user, isAuthLoading, error)
    }

    constructor()
      ensures State() == InitialState
    {
      editedPost := InitialState.editedPost;
      csrfTokenExp := false;
      isAuthenticated := false;
      user := None;
      isAuthLoading := true;
      error := NullError;
    }

    /** `dispatch(action)` of a plain action object. */
    method Dispatch(a: Action)
      modifies this
      ensures State() == Reduce(old(State()), a)
    {
      match a
      case ToggleCsrfState =>
        csrfTokenExp := !csrfTokenExp;
      case SetLoggedInUser(u) =>
        isAuthenticated := true;
        user := u;
      case LogoutUser =>
        isAuthenticated := false;
        user := None;
      case AuthPending =>
        isAuthLoading := true;
        error := UndefinedError;
      case AuthFulfilled(u) =>
        isAuthLoading := false;
        isAuthenticated := true;
        user := u;
        error := UndefinedError;
      case AuthRejected(m) =>
        isAuthLoading := false;
        isAuthenticated := false;
        error := ErrorOf(m);
    }
  }
}
