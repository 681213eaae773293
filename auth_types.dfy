/*
 * Values shared by the login routes and the access guards: the session record
 * that express-session keeps per browser, the authorization server's token and
 * user-info replies, parsed query-string values, redirect locations, and the
 * calls a handler makes to its collaborators.
 */
module AuthTypes {

  datatype Option<+T> = None | Some(value: T)

  /** Outcome of an awaited collaborator call: its value, or a rejected promise. */
  datatype Result<+T> = Ok(value: T) | Err

  /** The `user` object of a session; `roles` may be absent. */
  datatype User = User(id: string, email: Option<string>, name: Option<string>, roles: Option<seq<string>>)

  /** The session record: every field is optional. */
  datatype Session = Session(
    oauthState: Option<string>,
    postLoginRedirect: Option<string>,
    accessToken: Option<string>,
    refreshToken: Option<string>,
    user: Option<User>)

  /** A session as the store creates it for a new browser. */
  const EmptySession := Session(None, None, None, None, None)

  /** Reply of the token endpoint. */
  datatype TokenResponse = TokenResponse(
    accessToken: string,
    refreshToken: Option<string>,
    expiresIn: Option<int>,
    tokenType: Option<string>)

  /** The identity claims the flow reads (other claims are carried but never used). */
  datatype UserInfo = UserInfo(sub: string, email: Option<string>, name: Option<string>)

  /** A parsed query parameter: absent, one string, or a repeated or nested parameter (an array or object). */
  datatype QueryValue = Missing | Text(text: string) | Structured

  /** Where a redirect sends the browser. */
  datatype Location =
    | Authorize(state: string)     // the authorization endpoint URL built for `state`
    | LoginFor(returnTo: string)   // `/auth/login?redirect=` followed by the encoded `returnTo`
    | Url(url: string)             // a URL used as given

  /** A call a handler makes to a collaborator, in the order it makes them. */
  datatype Effect =
    | ExchangeCode(code: string, pendingState: Option<string>)  // token exchange; `pendingState` is the session's oauth_state when it is issued
    | FetchUserInfo(accessToken: string)
    | RevokeRequest(token: string)
    | SaveSession
    | DestroySession

  /** JavaScript truthiness of an optional string: present and not empty. */
  predicate Truthy(o: Option<string>) {
    o.Some? && o.value != ""
  }

  /** A query value that passes `!v || typeof v !== 'string'` unrejected. */
  predicate IsNonEmptyText(q: QueryValue) {
    q.Text? && q.text != ""
  }

  predicate HasUser(s: Option<Session>) {
    s.Some? && s.value.user.Some?
  }

  /** `user.roles || []`: an absent roles list reads as empty. */
  function RolesOf(u: User): seq<string> {
    if u.roles.Some? then u.roles.value else []
  }

  function UserRoles(s: Option<Session>): seq<string>
    requires HasUser(s)
  {
    RolesOf(s.value.user.value)
  }

  /**
   * What every route handler keeps true of a session: user and access token
   * are present together, and an empty post-login target is never stored.
   */
  predicate Consistent(s: Session) {
    (s.user.Some? <==> s.accessToken.Some?) && s.postLoginRedirect != Some("")
  }
}
