/** The client's session: the signed-in user, the bearer token and the status of the
    account requests. The token read from browser storage at start-up is a parameter. */
module AuthSlice {
  import opened Wrappers
  import opened JsText

  datatype User = User(id: string, name: string, email: string)

  /** The answer to login and register: the user and a fresh token. */
  datatype Session = Session(user: Option<User>, token: Option<string>)

  /** The answer to the current-user request. */
  datatype Profile = Profile(user: Option<User>)

  datatype AuthState = AuthState(user: Option<User>, token: Option<string>, isLoading: bool, error: Option<string>)

  datatype Thunk = Login | Register | GetCurrentUser | CheckAuth

  datatype Action =
    | Logout
    | ClearError
    | Pending(thunk: Thunk)
    | Rejected(thunk: Thunk, error: string)
    | LoginFulfilled(session: Session)
    | RegisterFulfilled(registered: Session)
    | CurrentUserFulfilled(profile: Profile)
    | CheckAuthFulfilled(checked: Option<Profile>)

  /** The state at start-up: no user, and the stored token when there is a non-empty one. */
  function InitialState(stored: Option<string>): (s: AuthState)
    ensures s.user.None? && !s.isLoading && s.error.None?
    ensures s.token.Some? <==> Truthy(stored)
    ensures s.token.Some? ==> s.token == stored
  {
    AuthState(None, if Truthy(stored) then stored else None, false, None)
  }

  /** The auth reducer. */
  function Reduce(s: AuthState, a: Action): (r: AuthState)
    ensures a.Logout? ==> r.user.None? && r.token.None? && r.isLoading == s.isLoading && r.error == s.error
    ensures a.ClearError? ==> r.error.None? && r.user == s.user && r.token == s.token && r.isLoading == s.isLoading
    ensures a.Pending? ==> r.isLoading && r.user == s.user && r.token == s.token
    ensures a.Pending? ==> (if a.thunk == CheckAuth then r.error == s.error else r.error.None?)
    ensures a.LoginFulfilled? ==> r.user == a.session.user && r.token == a.session.token && !r.isLoading && r.error == s.error
    ensures a.RegisterFulfilled? ==> r.user == a.registered.user && r.token == a.registered.token && !r.isLoading && r.error == s.error
    ensures a.CurrentUserFulfilled? ==> r.user == a.profile.user && r.token == s.token && !r.isLoading
    ensures a.CheckAuthFulfilled? ==>
              r.user == (if a.checked.Some? then a.checked.value.user else None) && r.token == s.token && !r.isLoading
    ensures a.Rejected? && a.thunk != CheckAuth ==>
              r.error == Some(a.error) && r.user == s.user && r.token == s.token && !r.isLoading
    ensures a.Rejected? && a.thunk == CheckAuth ==>
              r.user.None? && r.token.None? && r.error == s.error && !r.isLoading
  {
    match a
    case Logout => s.(user := None, token := None)
    case ClearError => s.(error := None)
    case Pending(CheckAuth) => s.(isLoading := true)
    case Pending(_) => s.(isLoading := true, error := None)
    case LoginFulfilled(session) => s.(isLoading := false, user := session.user, token := session.token)
    case RegisterFulfilled(session) => s.(isLoading := false, user := session.user, token := session.token)
    case CurrentUserFulfilled(profile) => s.(isLoading := false, user := profile.user)
    case CheckAuthFulfilled(checked) => s.(isLoading := false, user := if checked.Some? then checked.value.user else None)
    case Rejected(CheckAuth, _) => s.(isLoading := false, user := None, token := None)
    case Rejected(_, e) => s.(isLoading := false, error := Some(e))
  }

  // ---------------------------------------------------------------------------
  // Properties

  /** A token is dropped only by logging out, by a failed auth check, or by a sign-in answer without one. */
  lemma TokenDroppedOnlyBy(s: AuthState, a: Action)
    requires s.token.Some? && Reduce(s, a).token.None?
    ensures || a.Logout? || (a.Rejected? && a.thunk == CheckAuth)
            || (a.LoginFulfilled? && a.session.token.None?) || (a.RegisterFulfilled? && a.registered.token.None?)
  {
  }

  /** A failed login leaves an existing session in place and only records why. */
  lemma FailedLoginKeepsSession(s: AuthState, e: string)
    ensures var r := Reduce(Reduce(s, Pending(Login)), Rejected(Login, e));
      r == s.(isLoading := false, error := Some(e))
  {
  }

  /** The start-up check keeps an error shown from before; a sign-in attempt clears it. */
  lemma CheckAuthKeepsError(s: AuthState)
    ensures Reduce(s, Pending(CheckAuth)).error == s.error
    ensures Reduce(s, Pending(Login)).error.None? && Reduce(s, Pending(Register)).error.None?
  {
  }
}
