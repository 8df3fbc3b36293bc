/** The auth slice: authentication flag, user, tokens and their expiry. */
module AuthReducer {
  import opened Js

  /** The user record the identity provider returns; every field is optional.
      Extra keys the provider may add are not modelled. */
  datatype User = User(
    sub: Option<string>,
    name: Option<string>,
    nickname: Option<string>,
    email: Option<string>,
    emailVerified: Option<bool>,
    picture: Option<string>,
    updatedAt: Option<string>)

  datatype AuthState = AuthState(
    isAuthenticated: bool,
    isLoading: bool,
    user: Option<User>,
    error: Option<string>,
    accessToken: Option<string>,
    idToken: Option<string>,
    isTokenExpired: bool)

  /** The initial state starts out loading. */
  const InitialAuthState: AuthState := AuthState(false, true, None, None, None, None, false)

  datatype Action =
    | InitializeAuth
    | SetLoading(isLoading: bool)
    | SetAuthenticationStatus(isAuthenticated: bool)
    | SetUser(maybeUser: Option<User>)
    | ClearUser
    | SetTokens(maybeAccessToken: Option<string>, idToken: Option<string>)
    | ClearTokens
    | CheckTokenExpiration
    | SetTokenExpired(isExpired: bool)
    | Login
    | LoginSuccess(user: User, accessToken: string, idToken: Option<string>)
    | LoginFailure(error: string)
    | Logout
    | LogoutSuccess
    | LogoutFailure(error: string)
    | RefreshToken
    | RefreshTokenSuccess(accessToken: string)
    | RefreshTokenFailure(error: string)
    | SetError(maybeError: Option<string>)
    | ClearError

  /** authReducer. */
  function Reduce(s: AuthState, a: Action): AuthState
  {
    match a
    case InitializeAuth => s.(isLoading := true, error := None)
    case SetLoading(l) => s.(isLoading := l)
    case SetAuthenticationStatus(b) => s.(isAuthenticated := b, isLoading := false)
    case SetUser(u) => s.(user := u, isLoading := false, error := None)
    case ClearUser => s.(user := None, isAuthenticated := false)
    case SetTokens(accessToken, idToken) =>
      s.(accessToken := accessToken, idToken := Or(idToken, s.idToken), isTokenExpired := false, error := None)
    case ClearTokens => s.(accessToken := None, idToken := None, isTokenExpired := false)
    case CheckTokenExpiration => s
    case SetTokenExpired(e) => s.(isTokenExpired := e)
    case Login => s.(isLoading := true, error := None)
    case LoginSuccess(u, accessToken, idToken) =>
      s.(isAuthenticated := true, isLoading := false, user := Some(u), accessToken := Some(accessToken),
         idToken := OrNull(idToken), isTokenExpired := false, error := None)
    case LoginFailure(e) =>
      s.(isAuthenticated := false, isLoading := false, user := None, accessToken := None,
         idToken := None, error := Some(e))
    case Logout => s.(isLoading := true, error := None)
    case LogoutSuccess => InitialAuthState.(isLoading := false)
    case LogoutFailure(e) => s.(isLoading := false, error := Some(e))
    case RefreshToken => s.(isLoading := true, error := None)
    case RefreshTokenSuccess(accessToken) =>
      s.(accessToken := Some(accessToken), isTokenExpired := false, isLoading := false, error := None)
    case RefreshTokenFailure(e) => s.(isLoading := false, error := Some(e), isTokenExpired := true)
    case SetError(e) => s.(error := e, isLoading := false)
    case ClearError => s.(error := None)
  }

  /** checkTokenExpiration has no handler: the reducer returns the state it
      was given, so only setTokenExpired changes the expiry flag. */
  lemma ExpiryCheckOnlyAsks(s: AuthState)
    ensures Reduce(s, CheckTokenExpiration) == s
    ensures forall e :: Reduce(s, SetTokenExpired(e)) == s.(isTokenExpired := e)
  {
  }

  /** logoutSuccess forgets everything and stops loading, whatever came before. */
  lemma LogoutSuccessResets(s: AuthState)
    ensures var r := Reduce(s, LogoutSuccess);
            && !r.isAuthenticated && !r.isLoading && r.user == None
            && r.accessToken == None && r.idToken == None && r.error == None && !r.isTokenExpired
  {
  }

  /** setTokens keeps the previous idToken unless a non-empty one is supplied,
      and always clears the expiry flag and the error. */
  lemma SetTokensKeepsIdToken(s: AuthState, accessToken: Option<string>, idToken: Option<string>)
    ensures var r := Reduce(s, SetTokens(accessToken, idToken));
            && r.accessToken == accessToken
            && r.idToken == (if Truthy(idToken) then idToken else s.idToken)
            && !r.isTokenExpired && r.error == None
            && r.user == s.user && r.isAuthenticated == s.isAuthenticated && r.isLoading == s.isLoading
  {
  }

  /** A failed login leaves nobody signed in and no tokens. */
  lemma LoginFailureSignsOut(s: AuthState, e: string)
    ensures var r := Reduce(s, LoginFailure(e));
            !r.isAuthenticated && r.user == None && r.accessToken == None && r.idToken == None
            && r.error == Some(e) && !r.isLoading
  {
  }

  /** A successful login signs the user in with both tokens (an absent or
      empty idToken reads as null) and a fresh expiry flag. */
  lemma LoginSuccessSignsIn(s: AuthState, u: User, accessToken: string, idToken: Option<string>)
    ensures var r := Reduce(s, LoginSuccess(u, accessToken, idToken));
            && r.isAuthenticated && r.user == Some(u) && r.accessToken == Some(accessToken)
            && r.idToken == (if Truthy(idToken) then idToken else None)
            && !r.isTokenExpired && !r.isLoading && r.error == None
  {
  }

  /** A refreshed token replaces only the access token; a failed refresh
      marks the token expired and records the error. */
  lemma RefreshOutcomes(s: AuthState, accessToken: string, e: string)
    ensures var r := Reduce(s, RefreshTokenSuccess(accessToken));
            && r.accessToken == Some(accessToken) && !r.isTokenExpired && !r.isLoading && r.error == None
            && r.idToken == s.idToken && r.user == s.user && r.isAuthenticated == s.isAuthenticated
    ensures var r := Reduce(s, RefreshTokenFailure(e));
            && r.isTokenExpired && r.error == Some(e) && !r.isLoading
            && r.accessToken == s.accessToken && r.idToken == s.idToken
            && r.user == s.user && r.isAuthenticated == s.isAuthenticated
  {
  }

  /** clearUser keeps the tokens; clearTokens keeps the user. */
  lemma ClearUserAndTokens(s: AuthState)
    ensures var r := Reduce(s, ClearUser);
            r.user == None && !r.isAuthenticated && r.accessToken == s.accessToken && r.idToken == s.idToken
    ensures var r := Reduce(s, ClearTokens);
            r.accessToken == None && r.idToken == None && r.user == s.user && r.isAuthenticated == s.isAuthenticated
  {
  }

  /** setError stores the error and stops loading; clearError changes only the error. */
  lemma ErrorHandlers(s: AuthState, e: Option<string>)
    ensures var r := Reduce(s, SetError(e));
            && r.error == e && !r.isLoading
            && r.isAuthenticated == s.isAuthenticated && r.user == s.user && r.accessToken == s.accessToken
            && r.idToken == s.idToken && r.isTokenExpired == s.isTokenExpired
    ensures var r := Reduce(s, ClearError);
            && r.error == None && r.isLoading == s.isLoading
            && r.isAuthenticated == s.isAuthenticated && r.user == s.user && r.accessToken == s.accessToken
            && r.idToken == s.idToken && r.isTokenExpired == s.isTokenExpired
  {
  }

  /** setAuthenticationStatus changes only the flag and stops loading. */
  lemma AuthenticationStatusOnly(s: AuthState, b: bool)
    ensures var r := Reduce(s, SetAuthenticationStatus(b));
            && r.isAuthenticated == b && !r.isLoading
            && r.user == s.user && r.error == s.error && r.accessToken == s.accessToken
            && r.idToken == s.idToken && r.isTokenExpired == s.isTokenExpired
  {
  }
}
