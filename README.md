# OAuth2 login routes and access guards, modelled in Dafny

This project models the authentication layer of a small Express web client.
It covers two things:

- **The `/auth` routes** (`src/auth/AuthRoutes.ts`). These are `/login`, `/callback`, `/logout` and `/status`. Together they run the OAuth2 authorization-code flow, with a CSRF `state` value (sections 4.1 and 10.12 of RFC 6749), over a per-browser session record.
- **The access guards** (`middleware/authMiddleware.ts`). These are `requireAuth`, `checkAuth`, `requireRole`, `requireAnyRole` and `requireAllRoles`.

Files:

- `auth_types.dfy` (module `AuthTypes`). The session record of `src/types/session.d.ts`: `oauthState`, `postLoginRedirect`, `accessToken`, `refreshToken`, and `user` with an optional `roles`. Also the token and user-info replies, parsed query values (absent, a string, or an array/object), redirect locations, and the log of collaborator calls (`Effect`). The `Consistent` predicate is the session invariant: user and access token are present together, and an empty post-login target is never stored.
- `oauth_client.dfy` (module `OAuthClient`). The one rule of the authorization-server client that the routes depend on: `revokeToken` sends nothing for a blank token, and it never fails.
- `auth_routes.dfy` (module `AuthRoutes`). Each route is a method of `RouteContext`. That class holds the request's session and the ordered log of collaborator calls. Each method changes the session step by step, in the route's own order. Each method's postcondition equates its final state, call log and response with a function of the old session and the inputs (`LoginSpec`, `CallbackSpec`, `LogoutSpec`, `StatusSpec`).
- `auth_middleware.dfy` (module `AuthMiddleware`). The guards as functions from the session to an outcome: continue, redirect, or a status with a message. `includes`, `some` and `every` are recursive scans, proved equal to set membership. `checkAuth` is a method that writes a `Locals` object.
- `auth_flow.dfy` (module `AuthFlow`). Lemmas about the route functions, one request at a time and over any sequence of requests (`Run`). It also has lemmas on how the guards judge the session each route leaves behind.

Collaborators are inputs to the model:

- the random state nonce;
- the outcome of the token exchange and of the user-info lookup (`Ok(value)` or `Err`);
- whether `session.save` succeeded.

The `ExchangeCode` entry of the call log records the session's `oauth_state` at the moment the exchange is issued. That is how the model shows the state is cleared before the network call.

One consequence worth knowing: the callback stores a user without `roles`. So a session signed in through this flow never passes `requireRole`. In particular the `/admin` route of `src/server.ts:38` answers 403 to every session signed in through this flow with a non-empty access token; one with an empty access token is sent to login by `requireAuth` first (`AuthFlow.SignedInSessionAndGuards`).

## Behaviour of the code worth knowing

- A callback with a mismatched state answers 403 and leaves the stored state in place. The state is not cleared on a mismatch.
- Login stores the `redirect` target only when it is non-empty. An empty value keeps the earlier target.
- A failed exchange or user-info lookup writes no credentials. It does not clear credentials the session already held, so the session is not made anonymous.
- The callback removes `post_login_redirect` only when it is non-empty. The `Consistent` invariant shows an empty one is never stored.

## Model

| member | source | states |
|---|---|---|
| `OAuthClient.Revoke` | auth/OAuthConfig.ts:83-112 | revokeToken issues one revocation request exactly when the token is present and not all whitespace; it has no failure outcome |
| `OAuthClient.BlankTokensAreNotSent` | auth/OAuthConfig.ts:86-89 | revoking an absent, empty or whitespace-only token sends nothing |
| `AuthRoutes.RouteContext.Login` | src/auth/AuthRoutes.ts:19-63 | login sets the state, overwrites the post-login target only when given a non-empty one, saves, and redirects only after a successful save (500 otherwise, or without a session) |
| `AuthRoutes.RouteContext.Callback` | src/auth/AuthRoutes.ts:72-134 | the callback's checks, state clearing, exchange, user-info lookup, session writes and redirect, in the route's order |
| `AuthRoutes.RouteContext.RevokeToken` | src/auth/AuthRoutes.ts:145-151 | a revocation awaited by logout adds only its own request and leaves the session alone |
| `AuthRoutes.RouteContext.Logout` | src/auth/AuthRoutes.ts:142-168 | logout revokes the access then the refresh token, destroys the session and redirects to the query target or `/` |
| `AuthRoutes.RouteContext.ReportStatus` | src/auth/AuthRoutes.ts:174-185 | status changes nothing and reports authenticated, with the user, exactly when the session holds a user |
| `AuthMiddleware.Includes` | middleware/authMiddleware.ts:49 | the front-to-back scan of `includes` is membership |
| `AuthMiddleware.AnyIncluded` | middleware/authMiddleware.ts:71 | `some(role => held.includes(role))` holds exactly when the two lists share an element |
| `AuthMiddleware.AllIncluded` | middleware/authMiddleware.ts:95 | `every(role => held.includes(role))` holds exactly when every required role is held |
| `AuthMiddleware.RequireAuth` | middleware/authMiddleware.ts:9-18 | passes exactly when the session has a non-empty access token and a user; otherwise redirects to login carrying the original URL |
| `AuthMiddleware.RequireRole` | middleware/authMiddleware.ts:40-55 | 401 without a session user; otherwise passes exactly when the role is among the user's roles (absent roles read as none), else 403 naming the role |
| `AuthMiddleware.RequireAnyRole` | middleware/authMiddleware.ts:63-79 | 401 without a session user; otherwise passes exactly when some required role is held, else 403 listing the roles |
| `AuthMiddleware.RequireAllRoles` | middleware/authMiddleware.ts:87-103 | 401 without a session user; otherwise passes exactly when every required role is held, else 403 listing the roles |
| `AuthMiddleware.CheckAuth` | middleware/authMiddleware.ts:24-32 | always continues; sets isAuthenticated to whether there is a user, and attaches the user only then |
| `AuthMiddleware.SingleRoleGuardsAgree` | middleware/authMiddleware.ts:49-101 | any-of and all-of a single role decide exactly as requireRole of that role |
| `AuthMiddleware.EmptyRoleLists` | middleware/authMiddleware.ts:70-101 | an empty any-of list always gives 403; an empty all-of list passes every signed-in user |
| `AuthMiddleware.AbsentRolesNeverPass` | middleware/authMiddleware.ts:47-53 | a user without a roles field is refused by every requireRole |
| `AuthMiddleware.MoreRolesKeepAccess` | middleware/authMiddleware.ts:47-101 | giving a user more roles never turns a pass into a 403 |
| `AuthMiddleware.RequirementsSplit` | middleware/authMiddleware.ts:70-101 | all-of a concatenation is all-of both parts; any-of it is any-of either part |
| `AuthMiddleware.AllImpliesAny` | middleware/authMiddleware.ts:70-101 | holding all of a non-empty list implies holding one of it |
| `AuthMiddleware.GuardOutcomeKinds` | middleware/authMiddleware.ts:9-103 | requireAuth continues or redirects; each role guard continues or answers 401 or 403 |
| `AuthMiddleware.RoleGuardExamples` | middleware/authMiddleware.ts:40-103 | admin/editor/viewer examples of the three role guards |
| `AuthFlow.LoginStoresStateBeforeRedirect` | src/auth/AuthRoutes.ts:30-55 | login stores the nonce, keeps an earlier target unless given a non-empty one, saves, and redirects to the authorization server exactly when the save succeeded |
| `AuthFlow.LoginWithoutSession` | src/auth/AuthRoutes.ts:56-58 | without a session login answers 500 and calls nothing |
| `AuthFlow.CallbackMissingCode` | src/auth/AuthRoutes.ts:84-87 | a missing, empty or non-string code gives the missing-code 400 whatever the state, with the session unchanged and no call |
| `AuthFlow.CallbackMissingState` | src/auth/AuthRoutes.ts:89-92 | with a code but no usable state, the missing-state 400, session unchanged, no call |
| `AuthFlow.CallbackStateMismatch` | src/auth/AuthRoutes.ts:95-99 | a state differing from the stored one (no session or none stored included) gives 403 with the session unchanged and no exchange |
| `AuthFlow.CallbackChecksPrecedeCalls` | src/auth/AuthRoutes.ts:84-105 | the callback calls a collaborator exactly when the state is accepted; otherwise it answers 400 or 403 and changes nothing |
| `AuthFlow.CallbackSpendsState` | src/auth/AuthRoutes.ts:101-105 | once accepted, the state is removed before the exchange is issued and stays removed in every outcome |
| `AuthFlow.CallbackFailureWritesNoCredentials` | src/auth/AuthRoutes.ts:105-133 | a failed exchange or user-info lookup answers 500 and writes no token and no user |
| `AuthFlow.CallbackSuccess` | src/auth/AuthRoutes.ts:105-129 | success stores both tokens and a user `{sub, email, name}` without roles, and redirects to the non-empty stored target (then removed) or to /tasks |
| `AuthFlow.LogoutRevokesThenDestroys` | src/auth/AuthRoutes.ts:145-163 | logout revokes the access token, then the refresh token, destroys the session and redirects to the query target or / |
| `AuthFlow.LogoutTargetIgnoresSession` | src/auth/AuthRoutes.ts:154-163 | where logout redirects depends only on the query |
| `AuthFlow.LogoutWithoutTokens` | src/auth/AuthRoutes.ts:142-168 | logout of a session without tokens calls no revocation, destroys it and goes to / |
| `AuthFlow.StatusReportsUser` | src/auth/AuthRoutes.ts:174-185 | status reports the user exactly when present, whatever the access token holds |
| `AuthFlow.HandlePreservesConsistent` | src/auth/AuthRoutes.ts:19-185 | every route keeps user and access token together and never stores an empty post-login target |
| `AuthFlow.RunPreservesConsistent` | src/auth/AuthRoutes.ts:19-185 | the same invariant holds after any sequence of requests |
| `AuthFlow.NoExchangeWithoutLogin` | src/auth/AuthRoutes.ts:95-105 | with no state pending and no login in between, no callback exchanges a code; each is answered 400 or 403 |
| `AuthFlow.StateIsSingleUse` | src/auth/AuthRoutes.ts:95-105 | after a callback accepts a state, no later callback exchanges a code until a new login |
| `AuthFlow.FailedSaveStoresNoState` | src/auth/AuthRoutes.ts:42-47 | from any session not already holding the nonce, a login whose save failed answers 500 and leaves the stored session as it was, so the callback carrying its nonce is answered 403 with no exchange, whatever the redirect and collaborator outcomes |
| `AuthFlow.SignedInSessionAndGuards` | src/auth/AuthRoutes.ts:112-118 | after a successful callback with a non-empty token, requireAuth and status accept the session but every requireRole refuses it (403) |
| `AuthFlow.LoggedOutSessionAndGuards` | src/auth/AuthRoutes.ts:157-163 | after logout requireAuth redirects to login, every role guard answers 401 and status reports no user |
| `AuthFlow.ProtectedPageRoundTrip` | src/auth/AuthRoutes.ts:30-129 | requireAuth's login redirect, login with that URL and the callback with the login's state land back on the page, signed in |

## Left out

- Network calls of `auth/OAuthConfig.ts`: token exchange and user-info lookup are outcomes given to the model (`Ok`/`Err`), so the status and body text of a failed reply are not modelled. Revocation has no outcome, since `revokeToken` swallows its errors (auth/OAuthConfig.ts:104-111).
- `refreshAccessToken`: no route uses it.
- The local decoding of the access token with `jwt.decode` in `getUserInfo` is part of the user-info outcome; claims other than `sub`, `email` and `name` are not carried.
- `getAuthorizationUrl` and `encodeURIComponent` build strings with library code; the model keeps their arguments (`Authorize(state)`, `LoginFor(url)`) instead of the URL text.
- `crypto.randomBytes`: the nonce is an input. Its format (32 lower-case hex characters) appears only as a premise of `AuthFlow.ProtectedPageRoundTrip`; other lemmas need only a non-empty nonce.
- The `catch` branches answering "Failed to initiate login" and "Logout failed": given the inputs above nothing in these handlers can throw, because the nonce is an input and revocation swallows its errors.
- The `if (req.session)` test at src/auth/AuthRoutes.ts:111 is always true after the state check, so the model has no branch for it.
- A `redirect` query parameter given as an array or object on `/login` or `/logout`: the source casts it to a string without checking, and the model takes it as a string or absent.
- The error of `session.destroy`: it is only logged, so logout's outcome has no input for it, and the session counts as gone at once.
- `middleware/sessionMiddleware.ts`, `src/server.ts` and `types/better-sqlite3-session-store.d.ts`: session storage, cookie settings, expiry sweep and application wiring are not part of this model. In particular `Run` does not create a new session after logout, as the store would on the next request.
- `AuthFlow.Run` and `AuthFlow.StateIsSingleUse` assume the requests on one session do not overlap: each request starts after the previous one's session was stored. Two overlapping callbacks each load their own copy of the session, so both can accept the same state; the model does not capture that.
- `AuthFlow.Run` and `AuthFlow.StateIsSingleUse` assume the session a callback leaves is stored. If express-session's end-of-response save fails, the spent state stays stored, and a replayed callback passes the state check again.
- `AuthFlow.Run` treats a login whose save failed as leaving the stored record unchanged; the end-of-response save express-session may attempt afterwards is not modelled.
- Debug logging, and the asynchronous timing of the save, destroy and network callbacks.
