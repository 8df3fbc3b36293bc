/** Views of the auth slice: the token check, the display-name fallback
    chain and the two combined records. */
module AuthSelectors {
  import opened Js
  import opened AuthReducer

  function SelectIsAuthenticated(s: AuthState): bool { s.isAuthenticated }
  function SelectIsLoading(s: AuthState): bool { s.isLoading }
  function SelectAuthError(s: AuthState): Option<string> { s.error }
  function SelectUser(s: AuthState): Option<User> { s.user }

  /** `user?.email || null`. */
  function SelectUserEmail(s: AuthState): (r: Option<string>)
    ensures r.Some? <==> s.user.Some? && Truthy(s.user.value.email)
    ensures r.Some? ==> r == s.user.value.email
  {
    if s.user.Some? then OrNull(s.user.value.email) else None
  }

  /** `user?.name || user?.nickname || user?.email || null`: the first
      non-empty of the three, or null. */
  function SelectUserName(s: AuthState): (r: Option<string>)
    ensures r.Some? ==> r.value != ""
    ensures s.user.None? ==> r == None
    ensures s.user.Some? ==>
              var u := s.user.value;
              r == (if Truthy(u.name) then u.name
                    else if Truthy(u.nickname) then u.nickname
                    else if Truthy(u.email) then u.email
                    else None)
  {
    if s.user.Some? then
      var u := s.user.value;
      OrNull(Or(Or(u.name, u.nickname), u.email))
    else None
  }

  /** `user?.picture || null`. */
  function SelectUserPicture(s: AuthState): (r: Option<string>)
    ensures r.Some? <==> s.user.Some? && Truthy(s.user.value.picture)
    ensures r.Some? ==> r == s.user.value.picture
  {
    if s.user.Some? then OrNull(s.user.value.picture) else None
  }

  /** `user?.email_verified || false`. */
  function SelectIsEmailVerified(s: AuthState): (r: bool)
    ensures r <==> s.user.Some? && s.user.value.emailVerified == Some(true)
  {
    s.user.Some? && s.user.value.emailVerified.Some? && s.user.value.emailVerified.value
  }

  function SelectAccessToken(s: AuthState): Option<string> { s.accessToken }
  function SelectIdToken(s: AuthState): Option<string> { s.idToken }
  function SelectIsTokenExpired(s: AuthState): bool { s.isTokenExpired }

  /** `!!accessToken && !isExpired`. */
  function SelectHasValidToken(s: AuthState): (r: bool)
    ensures r <==> s.accessToken.Some? && s.accessToken.value != "" && !s.isTokenExpired
  {
    Truthy(SelectAccessToken(s)) && !SelectIsTokenExpired(s)
  }

  datatype AuthInfo = AuthInfo(isAuthenticated: bool, user: Option<User>, isLoading: bool, error: Option<string>)

  function SelectAuthInfo(s: AuthState): AuthInfo
  {
    AuthInfo(SelectIsAuthenticated(s), SelectUser(s), SelectIsLoading(s), SelectAuthError(s))
  }

  datatype UserProfile = UserProfile(
    user: Option<User>,
    isAuthenticated: bool,
    displayName: Option<string>,
    email: Option<string>,
    picture: Option<string>,
    isEmailVerified: bool)

  /** The profile record, computed from the user with its own copies of the
      fallback chains. */
  function SelectUserProfile(s: AuthState): UserProfile
  {
    var u := s.user;
    UserProfile(
      u, s.isAuthenticated,
      if u.Some? then OrNull(Or(Or(u.value.name, u.value.nickname), u.value.email)) else None,
      if u.Some? then OrNull(u.value.email) else None,
      if u.Some? then OrNull(u.value.picture) else None,
      u.Some? && u.value.emailVerified.Some? && u.value.emailVerified.value)
  }

  /** The profile's derived fields agree with the individual selectors. */
  lemma ProfileAgreesWithSelectors(s: AuthState)
    ensures var p := SelectUserProfile(s);
            && p.displayName == SelectUserName(s)
            && p.email == SelectUserEmail(s)
            && p.picture == SelectUserPicture(s)
            && p.isEmailVerified == SelectIsEmailVerified(s)
  {
  }

  /** After logoutSuccess there is no valid token and no user name. */
  lemma NothingAfterLogout(s: AuthState)
    ensures !SelectHasValidToken(Reduce(s, LogoutSuccess))
    ensures SelectUserName(Reduce(s, LogoutSuccess)) == None
  {
  }

  /** After a login with a non-empty access token the token is valid, until
      it is marked expired. */
  lemma ValidAfterLogin(s: AuthState, u: User, accessToken: string, idToken: Option<string>)
    requires accessToken != ""
    ensures var r := Reduce(s, LoginSuccess(u, accessToken, idToken));
            SelectHasValidToken(r) && !SelectHasValidToken(Reduce(r, SetTokenExpired(true)))
  {
  }
}
