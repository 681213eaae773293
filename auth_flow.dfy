/*
 * Properties of the login flow: what each route does to the session, in
 * which order it calls its collaborators, what it keeps true over any
 * sequence of requests on one session, and how the guards judge the session
 * each route leaves behind.
 */
module AuthFlow {
  import opened AuthTypes
  import opened AuthRoutes
  import OAuthClient
  import AuthMiddleware

  // ---------------------------------------------------------------------
  // GET /login

  /** Login stores the nonce, keeps an earlier target unless a non-empty one is given, and redirects only after a successful save. */
  lemma LoginStoresStateBeforeRedirect(s: Session, nonce: string, redirect: Option<string>, saved: bool)
    ensures var t := LoginSpec(Some(s), nonce, redirect, saved);
      t.session == Some(s.(oauthState := Some(nonce),
                           postLoginRedirect := if Truthy(redirect) then redirect else s.postLoginRedirect)) &&
      t.effects == [SaveSession] &&
      (t.response.Redirect? <==> saved) &&
      (saved ==> t.response == Redirect(Authorize(nonce))) &&
      (!saved ==> t.response == Status(500, SaveFailed))
  {
  }

  /** Without a session, login answers 500 and calls nothing. */
  lemma LoginWithoutSession(nonce: string, redirect: Option<string>, saved: bool)
    ensures LoginSpec(None, nonce, redirect, saved) == Transition(None, [], Status(500, SessionUnavailable))
  {
  }

  // ---------------------------------------------------------------------
  // GET /callback

  /** A missing, empty or non-string code is answered 400 first, whatever the state; nothing changes and nothing is called. */
  lemma CallbackMissingCode(s: Option<Session>, code: QueryValue, state: QueryValue,
                            exchange: Result<TokenResponse>, info: Result<UserInfo>)
    requires !IsNonEmptyText(code)
    ensures CallbackSpec(s, code, state, exchange, info) == Transition(s, [], Status(400, MissingCode))
  {
  }

  /** With a code but no usable state, the answer is the missing-state 400, with no change and no call. */
  lemma CallbackMissingState(s: Option<Session>, code: QueryValue, state: QueryValue,
                             exchange: Result<TokenResponse>, info: Result<UserInfo>)
    requires IsNonEmptyText(code) && !IsNonEmptyText(state)
    ensures CallbackSpec(s, code, state, exchange, info) == Transition(s, [], Status(400, MissingState))
  {
  }

  /** A state that differs from the stored one (or with no session or no stored state) is answered 403, before any call. */
  lemma CallbackStateMismatch(s: Option<Session>, code: QueryValue, state: QueryValue,
                              exchange: Result<TokenResponse>, info: Result<UserInfo>)
    requires IsNonEmptyText(code) && IsNonEmptyText(state)
    requires s.None? || s.value.oauthState != Some(state.text)
    ensures CallbackSpec(s, code, state, exchange, info) == Transition(s, [], Status(403, InvalidState))
  {
  }

  /**
   * The 400 and 403 checks come before any network call: the callback calls a
   * collaborator exactly when the state is accepted, and changes the session
   * only then.
   */
  lemma CallbackChecksPrecedeCalls(s: Option<Session>, code: QueryValue, state: QueryValue,
                                   exchange: Result<TokenResponse>, info: Result<UserInfo>)
    ensures var t := CallbackSpec(s, code, state, exchange, info);
      (t.effects != [] <==> StateAccepted(s, code, state)) &&
      (!StateAccepted(s, code, state) ==> t.session == s && t.response.Status? && t.response.code in {400, 403})
  {
  }

  /**
   * Once the state is accepted it is spent: the exchange is issued with no
   * state stored, and no outcome leaves one behind, a 500 included.
   */
  lemma CallbackSpendsState(s: Option<Session>, code: QueryValue, state: QueryValue,
                            exchange: Result<TokenResponse>, info: Result<UserInfo>)
    requires StateAccepted(s, code, state)
    ensures var t := CallbackSpec(s, code, state, exchange, info);
      t.session.Some? && t.session.value.oauthState.None? &&
      t.effects[0] == ExchangeCode(code.text, None)
  {
  }

  /** A failed exchange or user-info lookup answers 500 and writes no token and no user. */
  lemma CallbackFailureWritesNoCredentials(s: Option<Session>, code: QueryValue, state: QueryValue,
                                           exchange: Result<TokenResponse>, info: Result<UserInfo>)
    requires StateAccepted(s, code, state)
    requires exchange.Err? || info.Err?
    ensures var t := CallbackSpec(s, code, state, exchange, info);
      t.response == Status(500, AuthenticationFailed) &&
      t.session == Some(s.value.(oauthState := None)) &&
      (exchange.Err? ==> t.effects == [ExchangeCode(code.text, None)])
  {
  }

  /**
   * A successful callback stores both tokens and a user without roles, and
   * goes to the stored target when it is non-empty (then removed), else to
   * /tasks.
   */
  lemma CallbackSuccess(s: Option<Session>, code: QueryValue, state: QueryValue,
                        tokens: TokenResponse, claims: UserInfo)
    requires StateAccepted(s, code, state)
    ensures var t := CallbackSpec(s, code, state, Ok(tokens), Ok(claims));
      t.session.Some? &&
      t.session.value.accessToken == Some(tokens.accessToken) &&
      t.session.value.refreshToken == tokens.refreshToken &&
      t.session.value.user == Some(User(claims.sub, claims.email, claims.name, None)) &&
      t.session.value.oauthState.None? &&
      !Truthy(t.session.value.postLoginRedirect) &&
      t.effects == [ExchangeCode(code.text, None), FetchUserInfo(tokens.accessToken)] &&
      t.response == Redirect(Url(if Truthy(s.value.postLoginRedirect) then s.value.postLoginRedirect.value else DefaultLoginTarget))
  {
  }

  // ---------------------------------------------------------------------
  // GET /logout and GET /status

  /**
   * Logout revokes the access token, then the refresh token (each only when
   * non-empty, and revocation skips blank ones), destroys the session and
   * redirects to the `redirect` query value or to /.
   */
  lemma LogoutRevokesThenDestroys(s: Session, redirect: Option<string>)
    ensures var t := LogoutSpec(Some(s), redirect);
      t.session.None? &&
      t.effects == (if Truthy(s.accessToken) then OAuthClient.Revoke(s.accessToken) else []) +
                   (if Truthy(s.refreshToken) then OAuthClient.Revoke(s.refreshToken) else []) +
                   [DestroySession] &&
      t.response == Redirect(Url(if Truthy(redirect) then redirect.value else "/"))
  {
  }

  /** Where logout redirects depends only on the query, not on the session or its tokens. */
  lemma LogoutTargetIgnoresSession(s: Option<Session>, s': Option<Session>, redirect: Option<string>)
    ensures LogoutSpec(s, redirect).response == LogoutSpec(s', redirect).response
  {
  }

  /** Logout of a session without tokens calls no revocation, still destroys it and goes to /. */
  lemma LogoutWithoutTokens(s: Session)
    requires s.accessToken.None? && s.refreshToken.None?
    ensures LogoutSpec(Some(s), None) == Transition(None, [DestroySession], Redirect(Url("/")))
  {
  }

  /** Status reports a user exactly when the session holds one, whatever the access token. */
  lemma StatusReportsUser(s: Session, token: Option<string>)
    ensures StatusSpec(Some(s)) == StatusSpec(Some(s.(accessToken := token)))
    ensures StatusSpec(Some(s)).authenticated <==> s.user.Some?
    ensures StatusSpec(Some(s)).user == s.user
  {
  }

  // ---------------------------------------------------------------------
  // Sequences of requests on one session

  datatype Request =
    | LoginRequest(nonce: string, redirect: Option<string>, saved: bool)
    | CallbackRequest(code: QueryValue, state: QueryValue, exchange: Result<TokenResponse>, info: Result<UserInfo>)
    | LogoutRequest(redirect: Option<string>)
    | StatusRequest

  /**
   * One request as the next request sees it: the session the store holds
   * afterwards. A login whose save failed leaves the stored record as it was.
   */
  function Handle(s: Option<Session>, r: Request): Transition {
    match r
    case LoginRequest(nonce, redirect, saved) =>
      var t := LoginSpec(s, nonce, redirect, saved);
      if saved then t else t.(session := s)
    case CallbackRequest(code, state, exchange, info) => CallbackSpec(s, code, state, exchange, info)
    case LogoutRequest(redirect) => LogoutSpec(s, redirect)
    case StatusRequest => Transition(s, [], StatusSpec(s))
  }

  /** The session after a run, every call made, and one response per request. */
  datatype Trace = Trace(session: Option<Session>, effects: seq<Effect>, responses: seq<Response>)

  function Run(s: Option<Session>, rs: seq<Request>): (t: Trace)
    ensures |t.responses| == |rs|
    decreases |rs|
  {
    if rs == [] then Trace(s, [], [])
    else
      var first := Handle(s, rs[0]);
      var rest := Run(first.session, rs[1..]);
      Trace(rest.session, first.effects + rest.effects, [first.response] + rest.responses)
  }

  predicate ConsistentOrAbsent(s: Option<Session>) {
    s.Some? ==> Consistent(s.value)
  }

  /** Every route keeps user and access token together and never stores an empty target. */
  lemma HandlePreservesConsistent(s: Option<Session>, r: Request)
    requires ConsistentOrAbsent(s)
    ensures ConsistentOrAbsent(Handle(s, r).session)
  {
  }

  lemma {:induction false} RunPreservesConsistent(s: Option<Session>, rs: seq<Request>)
    requires ConsistentOrAbsent(s)
    ensures ConsistentOrAbsent(Run(s, rs).session)
    decreases |rs|
  {
    if rs != [] {
      HandlePreservesConsistent(s, rs[0]);
      RunPreservesConsistent(Handle(s, rs[0]).session, rs[1..]);
    }
  }

  predicate NoPendingState(s: Option<Session>) {
    s.None? || s.value.oauthState.None?
  }

  predicate NoLogin(rs: seq<Request>) {
    forall i :: 0 <= i < |rs| ==> !rs[i].LoginRequest?
  }

  /**
   * With no state pending and no login in between, no callback gets past the
   * state check: none exchanges a code, each is answered 400 or 403.
   */
  lemma {:induction false} NoExchangeWithoutLogin(s: Option<Session>, rs: seq<Request>)
    requires NoPendingState(s) && NoLogin(rs)
    ensures NoPendingState(Run(s, rs).session)
    ensures forall e :: e in Run(s, rs).effects ==> !e.ExchangeCode? && !e.FetchUserInfo?
    ensures forall i :: 0 <= i < |rs| && rs[i].CallbackRequest? ==>
              Run(s, rs).responses[i].Status? && Run(s, rs).responses[i].code in {400, 403}
    decreases |rs|
  {
    if rs != [] {
      var first := Handle(s, rs[0]);
      assert !rs[0].LoginRequest?;
      assert NoLogin(rs[1..]) by {
        forall i | 0 <= i < |rs[1..]| ensures !rs[1..][i].LoginRequest? {
          assert rs[1..][i] == rs[i + 1];
        }
      }
      if rs[0].CallbackRequest? {
        CallbackChecksPrecedeCalls(s, rs[0].code, rs[0].state, rs[0].exchange, rs[0].info);
      }
      NoExchangeWithoutLogin(first.session, rs[1..]);
      var t := Run(s, rs);
      var rest := Run(first.session, rs[1..]);
      assert t.responses == [first.response] + rest.responses;
      forall i | 0 <= i < |rs| && rs[i].CallbackRequest?
        ensures t.responses[i].Status? && t.responses[i].code in {400, 403}
      {
        if i > 0 {
          assert rs[1..][i - 1] == rs[i];
          assert t.responses[i] == rest.responses[i - 1];
        }
      }
    }
  }

  /**
   * The state is single-use: after a callback accepts it, the same state (or
   * any other) is refused by every later callback until a new login.
   */
  lemma StateIsSingleUse(s: Option<Session>, code: QueryValue, state: QueryValue,
                         exchange: Result<TokenResponse>, info: Result<UserInfo>, later: seq<Request>)
    requires StateAccepted(s, code, state) && NoLogin(later)
    ensures var after := CallbackSpec(s, code, state, exchange, info).session;
      forall e :: e in Run(after, later).effects ==> !e.ExchangeCode?
  {
    CallbackSpendsState(s, code, state, exchange, info);
    NoExchangeWithoutLogin(CallbackSpec(s, code, state, exchange, info).session, later);
  }

  /**
   * A login whose save failed stores no state: the stored session stays as it
   * was, and the callback that brings the nonce back is refused before any call.
   */
  lemma FailedSaveStoresNoState(s: Option<Session>, nonce: string, redirect: Option<string>, code: string,
                                exchange: Result<TokenResponse>, info: Result<UserInfo>)
    requires nonce != "" && code != ""
    requires s.Some? ==> s.value.oauthState != Some(nonce)
    ensures var t := Run(s, [LoginRequest(nonce, redirect, false),
                             CallbackRequest(Text(code), Text(nonce), exchange, info)]);
      t.responses[0].Status? && t.responses[0].code == 500 &&
      t.responses[1] == Status(403, InvalidState) &&
      t.session == s &&
      t.effects == (if s.Some? then [SaveSession] else [])
  {
    var rs := [LoginRequest(nonce, redirect, false), CallbackRequest(Text(code), Text(nonce), exchange, info)];
    assert rs[1..] == [rs[1]];
    assert rs[1..][1..] == [];
    var first := Handle(s, rs[0]);
    assert first.session == s;
    var second := Handle(s, rs[1]);
    assert second == Transition(s, [], Status(403, InvalidState));
    assert Run(s, rs[1..]) == Trace(s, [], [Status(403, InvalidState)]);
  }

  // ---------------------------------------------------------------------
  // The routes and the guards together

  /**
   * After a successful callback with a non-empty access token, requireAuth
   * and status accept the session, but no requireRole guard does: the
   * callback stores a user without roles.
   */
  lemma SignedInSessionAndGuards(s: Option<Session>, code: QueryValue, state: QueryValue,
                                 tokens: TokenResponse, claims: UserInfo, url: string, role: string)
    requires StateAccepted(s, code, state) && tokens.accessToken != ""
    ensures var after := CallbackSpec(s, code, state, Ok(tokens), Ok(claims)).session;
      AuthMiddleware.RequireAuth(after, url) == AuthMiddleware.Continue &&
      StatusSpec(after).authenticated &&
      AuthMiddleware.RequireRole(role, after).Reject? &&
      AuthMiddleware.RequireRole(role, after).status == 403 &&
      AuthMiddleware.RequireAllRoles([], after) == AuthMiddleware.Continue
  {
    var after := CallbackSpec(s, code, state, Ok(tokens), Ok(claims)).session;
    CallbackSuccess(s, code, state, tokens, claims);
    AuthMiddleware.AbsentRolesNeverPass(role, after);
  }

  /** After logout every guard turns the request away and status reports no user. */
  lemma LoggedOutSessionAndGuards(s: Option<Session>, redirect: Option<string>, url: string,
                                  role: string, roles: seq<string>)
    ensures var after := LogoutSpec(s, redirect).session;
      AuthMiddleware.RequireAuth(after, url) == AuthMiddleware.Redirect(LoginFor(url)) &&
      AuthMiddleware.RequireRole(role, after).status == 401 &&
      AuthMiddleware.RequireAnyRole(roles, after).status == 401 &&
      AuthMiddleware.RequireAllRoles(roles, after).status == 401 &&
      StatusSpec(after) == Json(false, None)
  {
  }

  /**
   * The round trip a protected page starts: requireAuth sends the browser to
   * login with the page's URL, login stores it and sends the browser to the
   * authorization server with a fresh state, and the callback that brings
   * that state back lands on the page, signed in.
   */
  lemma ProtectedPageRoundTrip(s: Session, url: string, nonce: string, code: string,
                               tokens: TokenResponse, claims: UserInfo)
    requires url != "" && code != "" && tokens.accessToken != ""
    requires IsStateNonce(nonce)
    requires !AuthMiddleware.IsAuthenticated(Some(s))
    ensures AuthMiddleware.RequireAuth(Some(s), url) == AuthMiddleware.Redirect(LoginFor(url))
    ensures var login := LoginSpec(Some(s), nonce, Some(url), true);
      login.response == Redirect(Authorize(nonce)) &&
      var back := CallbackSpec(login.session, Text(code), Text(nonce), Ok(tokens), Ok(claims));
      back.response == Redirect(Url(url)) &&
      back.effects == [ExchangeCode(code, None), FetchUserInfo(tokens.accessToken)] &&
      AuthMiddleware.RequireAuth(back.session, url) == AuthMiddleware.Continue &&
      back.session.value.postLoginRedirect.None? && back.session.value.oauthState.None?
  {
    assert nonce != "" by { assert |nonce| == 32; }
  }
}
