/*
 * The four routes under /auth: login, callback, logout and status.
 *
 * Each handler is a method of `RouteContext`, which holds the request's
 * session and the log of collaborator calls; the method changes the session
 * in the same order as the route does.  Each method is tied to a function
 * that gives the same transition as a value (`LoginSpec`, `CallbackSpec`,
 * `LogoutSpec`, `StatusSpec`); the properties of the flow are lemmas about
 * those functions (module AuthFlow).
 */
module AuthRoutes {
  import opened AuthTypes
  import OAuthClient

  /** What a handler sends back. */
  datatype Response =
    | Redirect(to: Location)
    | Status(code: int, body: string)
    | Json(authenticated: bool, user: Option<User>)

  /** The session after a handler, the collaborator calls it made, in order, and its response. */
  datatype Transition = Transition(session: Option<Session>, effects: seq<Effect>, response: Response)

  const DefaultLoginTarget := "/tasks"
  const DefaultLogoutTarget := "/"

  const SessionUnavailable := "Session not available"
  const SaveFailed := "Failed to save session"
  const MissingCode := "Missing authorization code"
  const MissingState := "Missing state parameter"
  const InvalidState := "Invalid state parameter - possible CSRF attack"
  const AuthenticationFailed := "Authentication failed"

  /** The state value the login route generates: 16 random bytes in lower-case hex. */
  predicate IsStateNonce(n: string) {
    |n| == 32 && forall i :: 0 <= i < |n| ==> n[i] in "0123456789abcdef"
  }

  /** A callback whose parameters are present and whose state equals the one stored at login. */
  predicate StateAccepted(s: Option<Session>, code: QueryValue, state: QueryValue) {
    IsNonEmptyText(code) && IsNonEmptyText(state) &&
    s.Some? && s.value.oauthState == Some(state.text)
  }

  /** Post-login target: the stored one when it is non-empty, else the default. */
  function LoginTarget(s: Session): string {
    if Truthy(s.postLoginRedirect) then s.postLoginRedirect.value else DefaultLoginTarget
  }

  /** GET /login with nonce `nonce`, query `redirect`, and the outcome of `session.save`. */
  function LoginSpec(s: Option<Session>, nonce: string, redirect: Option<string>, saved: bool): Transition {
    if s.None? then
      Transition(None, [], Status(500, SessionUnavailable))
    else
      var pending := s.value.(oauthState := Some(nonce));
      var stored := if Truthy(redirect) then pending.(postLoginRedirect := redirect) else pending;
      Transition(Some(stored), [SaveSession],
        if saved then Redirect(Authorize(nonce)) else Status(500, SaveFailed))
  }

  /** GET /callback with query `code` and `state` and the outcomes of token exchange and user-info lookup. */
  function CallbackSpec(s: Option<Session>, code: QueryValue, state: QueryValue,
                        exchange: Result<TokenResponse>, info: Result<UserInfo>): Transition
  {
    if !IsNonEmptyText(code) then
      Transition(s, [], Status(400, MissingCode))
    else if !IsNonEmptyText(state) then
      Transition(s, [], Status(400, MissingState))
    else if s.None? || s.value.oauthState != Some(state.text) then
      Transition(s, [], Status(403, InvalidState))
    else
      var cleared := s.value.(oauthState := None);
      var exchanged := [ExchangeCode(code.text, cleared.oauthState)];
      if exchange.Err? then
        Transition(Some(cleared), exchanged, Status(500, AuthenticationFailed))
      else
        var tokens := exchange.value;
        var fetched := exchanged + [FetchUserInfo(tokens.accessToken)];
        if info.Err? then
          Transition(Some(cleared), fetched, Status(500, AuthenticationFailed))
        else
          var claims := info.value;
          var signedIn := cleared.(accessToken := Some(tokens.accessToken),
                                   refreshToken := tokens.refreshToken,
                                   user := Some(User(claims.sub, claims.email, claims.name, None)));
          var done := if Truthy(signedIn.postLoginRedirect) then signedIn.(postLoginRedirect := None) else signedIn;
          Transition(Some(done), fetched, Redirect(Url(LoginTarget(signedIn))))
  }

  /** Revocation requests logout issues for a session: access token first, then refresh token. */
  function LogoutRevocations(s: Session): seq<Effect> {
    (if Truthy(s.accessToken) then OAuthClient.Revoke(s.accessToken) else []) +
    (if Truthy(s.refreshToken) then OAuthClient.Revoke(s.refreshToken) else [])
  }

  /** GET /logout with query `redirect`. */
  function LogoutSpec(s: Option<Session>, redirect: Option<string>): Transition {
    var target := if Truthy(redirect) then redirect.value else DefaultLogoutTarget;
    if s.None? then
      Transition(None, [], Redirect(Url(target)))
    else
      Transition(None, LogoutRevocations(s.value) + [DestroySession], Redirect(Url(target)))
  }

  /** GET /status. */
  function StatusSpec(s: Option<Session>): Response {
    if HasUser(s) then Json(true, s.value.user) else Json(false, None)
  }

  /** One request being handled: its session (absent when the store supplied none) and the calls made so far. */
  class RouteContext {
    var session: Option<Session>
    var effects: seq<Effect>

    constructor (s: Option<Session>)
      ensures session == s && effects == []
    {
      session := s;
      effects := [];
    }

    method Login(nonce: string, redirect: Option<string>, saved: bool) returns (resp: Response)
      modifies this
      ensures var t := LoginSpec(old(session), nonce, redirect, saved);
              session == t.session && effects == old(effects) + t.effects && resp == t.response
    {
      if session.None? {
        resp := Status(500, SessionUnavailable);
        return;
      }
      session := Some(session.value.(oauthState := Some(nonce)));
      if Truthy(redirect) {
        session := Some(session.value.(postLoginRedirect := redirect));
      }
      effects := effects + [SaveSession];
      if !saved {
        resp := Status(500, SaveFailed);
        return;
      }
      resp := Redirect(Authorize(nonce));
    }

    method Callback(code: QueryValue, state: QueryValue, exchange: Result<TokenResponse>, info: Result<UserInfo>)
      returns (resp: Response)
      modifies this
      ensures var t := CallbackSpec(old(session), code, state, exchange, info);
              session == t.session && effects == old(effects) + t.effects && resp == t.response
    {
      if !IsNonEmptyText(code) {
        resp := Status(400, MissingCode);
        return;
      }
      if !IsNonEmptyText(state) {
        resp := Status(400, MissingState);
        return;
      }
      if session.None? || session.value.oauthState != Some(state.text) {
        resp := Status(403, InvalidState);
        return;
      }
      session := Some(session.value.(oauthState := None));
      effects := effects + [ExchangeCode(code.text, session.value.oauthState)];
      if exchange.Err? {
        resp := Status(500, AuthenticationFailed);
        return;
      }
      var tokens := exchange.value;
      effects := effects + [FetchUserInfo(tokens.accessToken)];
      if info.Err? {
        resp := Status(500, AuthenticationFailed);
        return;
      }
      var claims := info.value;
      session := Some(session.value.(accessToken := Some(tokens.accessToken)));
      session := Some(session.value.(refreshToken := tokens.refreshToken));
      session := Some(session.value.(user := Some(User(claims.sub, claims.email, claims.name, None))));
      var target := if Truthy(session.value.postLoginRedirect) then session.value.postLoginRedirect.value else DefaultLoginTarget;
      if Truthy(session.value.postLoginRedirect) {
        session := Some(session.value.(postLoginRedirect := None));
      }
      resp := Redirect(Url(target));
    }

    /** revokeToken, as logout awaits it: it only adds the request it sends. */
    method RevokeToken(token: Option<string>)
      modifies this
      ensures session == old(session) && effects == old(effects) + OAuthClient.Revoke(token)
    {
      if !OAuthClient.IsBlank(token) {
        effects := effects + [RevokeRequest(token.value)];
      }
    }

    method Logout(redirect: Option<string>) returns (resp: Response)
      modifies this
      ensures var t := LogoutSpec(old(session), redirect);
              session == t.session && effects == old(effects) + t.effects && resp == t.response
    {
      if session.Some? && Truthy(session.value.accessToken) {
        RevokeToken(session.value.accessToken);
      }
      if session.Some? && Truthy(session.value.refreshToken) {
        RevokeToken(session.value.refreshToken);
      }
      var target := if Truthy(redirect) then redirect.value else DefaultLogoutTarget;
      if session.Some? {
        effects := effects + [DestroySession];
        session := None;
      }
      resp := Redirect(Url(target));
    }

    method ReportStatus() returns (resp: Response)
      ensures resp == StatusSpec(session)
      ensures resp.Json? && (resp.authenticated <==> HasUser(session))
    {
      if session.Some? && session.value.user.Some? {
        resp := Json(true, session.value.user);
      } else {
        resp := Json(false, None);
      }
    }
  }
}
