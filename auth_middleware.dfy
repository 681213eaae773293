/*
 * Access guards placed in front of protected routes.  `RequireAuth` and the
 * three role guards decide an outcome from the session alone and never write
 * to it; `CheckAuth` always lets the request through and records what it saw
 * on the response's locals.
 */
module AuthMiddleware {
  import opened AuthTypes

  /** What a guard does with the request. */
  datatype Outcome =
    | Continue                              // next()
    | Redirect(to: Location)                // res.redirect(...)
    | Reject(status: int, message: string)  // res.status(status).send(message)

  const NotAuthenticated := "Unauthorized: Not authenticated"

  /** Two outcomes of the same kind, and the same status when both reject. */
  predicate SameVerdict(a: Outcome, b: Outcome) {
    a.Continue? == b.Continue? && a.Redirect? == b.Redirect? && a.Reject? == b.Reject? &&
    (a.Reject? ==> a.status == b.status)
  }

  /** A session `requireAuth` lets through: a non-empty access token and a user. */
  predicate IsAuthenticated(s: Option<Session>) {
    s.Some? && Truthy(s.value.accessToken) && s.value.user.Some?
  }

  /** `held.includes(role)`, scanning from the front. */
  function Includes(held: seq<string>, role: string): (b: bool)
    ensures b <==> role in held
  {
    if held == [] then false else held[0] == role || Includes(held[1..], role)
  }

  /** `required.some(role => held.includes(role))` */
  function AnyIncluded(required: seq<string>, held: seq<string>): (b: bool)
    ensures b <==> exists r :: r in required && r in held
  {
    if required == [] then false
    else Includes(held, required[0]) || AnyIncluded(required[1..], held)
  }

  /** `required.every(role => held.includes(role))` */
  function AllIncluded(required: seq<string>, held: seq<string>): (b: bool)
    ensures b <==> forall r :: r in required ==> r in held
  {
    if required == [] then true
    else Includes(held, required[0]) && AllIncluded(required[1..], held)
  }

  /** `roles.join(sep)` */
  function Join(roles: seq<string>, sep: string): string {
    if |roles| == 0 then ""
    else if |roles| == 1 then roles[0]
    else roles[0] + sep + Join(roles[1..], sep)
  }

  /** requireAuth: pass an authenticated session, otherwise send the browser to login with the URL it asked for. */
  function RequireAuth(session: Option<Session>, originalUrl: string): (o: Outcome)
    ensures o.Continue? <==> IsAuthenticated(session)
    ensures !o.Continue? ==> o == Redirect(LoginFor(originalUrl))
  {
    if IsAuthenticated(session) then Continue else Redirect(LoginFor(originalUrl))
  }

  /** requireRole(role) */
  function RequireRole(role: string, session: Option<Session>): (o: Outcome)
    ensures !HasUser(session) ==> o == Reject(401, NotAuthenticated)
    ensures HasUser(session) ==> (o.Continue? <==> role in UserRoles(session))
    ensures HasUser(session) && role !in UserRoles(session) ==>
              o == Reject(403, "Forbidden: Requires " + role + " role")
  {
    if !HasUser(session) then Reject(401, NotAuthenticated)
    else if Includes(UserRoles(session), role) then Continue
    else Reject(403, "Forbidden: Requires " + role + " role")
  }

  /** requireAnyRole(roles) */
  function RequireAnyRole(roles: seq<string>, session: Option<Session>): (o: Outcome)
    ensures !HasUser(session) ==> o == Reject(401, NotAuthenticated)
    ensures HasUser(session) ==>
              (o.Continue? <==> exists r :: r in roles && r in UserRoles(session))
    ensures HasUser(session) && !o.Continue? ==>
              o == Reject(403, "Forbidden: Requires one of: " + Join(roles, ", "))
  {
    if !HasUser(session) then Reject(401, NotAuthenticated)
    else if AnyIncluded(roles, UserRoles(session)) then Continue
    else Reject(403, "Forbidden: Requires one of: " + Join(roles, ", "))
  }

  /** requireAllRoles(roles) */
  function RequireAllRoles(roles: seq<string>, session: Option<Session>): (o: Outcome)
    ensures !HasUser(session) ==> o == Reject(401, NotAuthenticated)
    ensures HasUser(session) ==>
              (o.Continue? <==> forall r :: r in roles ==> r in UserRoles(session))
    ensures HasUser(session) && !o.Continue? ==>
              o == Reject(403, "Forbidden: Requires all roles: " + Join(roles, ", "))
  {
    if !HasUser(session) then Reject(401, NotAuthenticated)
    else if AllIncluded(roles, UserRoles(session)) then Continue
    else Reject(403, "Forbidden: Requires all roles: " + Join(roles, ", "))
  }

  /** `res.locals` as checkAuth writes it. */
  class Locals {
    var user: Option<User>
    var isAuthenticated: Option<bool>

    constructor ()
      ensures user == None && isAuthenticated == None
    {
      user := None;
      isAuthenticated := None;
    }
  }

  /** checkAuth: always continues; attaches the user only when there is one. */
  method CheckAuth(session: Option<Session>, locals: Locals) returns (o: Outcome)
    modifies locals
    ensures o == Continue
    ensures locals.isAuthenticated == Some(HasUser(session))
    ensures locals.user == if HasUser(session) then session.value.user else old(locals.user)
  {
    if session.Some? && session.value.user.Some? {
      locals.user := session.value.user;
      locals.isAuthenticated := Some(true);
    } else {
      locals.isAuthenticated := Some(false);
    }
    o := Continue;
  }

  // ---------------------------------------------------------------------
  // Relations between the guards

  /** With one required role, the any-of and all-of guards decide as requireRole does. */
  lemma SingleRoleGuardsAgree(role: string, session: Option<Session>)
    ensures SameVerdict(RequireAnyRole([role], session), RequireRole(role, session))
    ensures SameVerdict(RequireAllRoles([role], session), RequireRole(role, session))
  {
    if HasUser(session) {
      assert role in [role];
    }
  }

  /** An empty list: nobody has "one of" no roles; everybody authenticated has "all of" them. */
  lemma EmptyRoleLists(session: Option<Session>)
    requires HasUser(session)
    ensures RequireAnyRole([], session) == Reject(403, "Forbidden: Requires one of: ")
    ensures RequireAllRoles([], session) == Continue
  {
  }

  /** An absent roles field is no roles at all: requireRole never passes such a user. */
  lemma AbsentRolesNeverPass(role: string, session: Option<Session>)
    requires HasUser(session) && session.value.user.value.roles.None?
    ensures RequireRole(role, session) == Reject(403, "Forbidden: Requires " + role + " role")
  {
  }

  /** Giving a user more roles never turns a pass into a rejection. */
  lemma MoreRolesKeepAccess(role: string, roles: seq<string>, s: Option<Session>, t: Option<Session>)
    requires HasUser(s) && HasUser(t)
    requires forall r :: r in UserRoles(s) ==> r in UserRoles(t)
    ensures RequireRole(role, s).Continue? ==> RequireRole(role, t).Continue?
    ensures RequireAnyRole(roles, s).Continue? ==> RequireAnyRole(roles, t).Continue?
    ensures RequireAllRoles(roles, s).Continue? ==> RequireAllRoles(roles, t).Continue?
  {
  }

  /** Requirements split over concatenation: all of both lists, or one of either. */
  lemma RequirementsSplit(a: seq<string>, b: seq<string>, session: Option<Session>)
    requires HasUser(session)
    ensures RequireAllRoles(a + b, session).Continue? <==>
              RequireAllRoles(a, session).Continue? && RequireAllRoles(b, session).Continue?
    ensures RequireAnyRole(a + b, session).Continue? <==>
              RequireAnyRole(a, session).Continue? || RequireAnyRole(b, session).Continue?
  {
    var held := UserRoles(session);
    if RequireAnyRole(a + b, session).Continue? {
      var r :| r in a + b && r in held;
      assert r in a || r in b;
    }
    if RequireAnyRole(a, session).Continue? {
      var r :| r in a && r in held;
      assert r in a + b;
    }
    if RequireAnyRole(b, session).Continue? {
      var r :| r in b && r in held;
      assert r in a + b;
    }
  }

  /** Holding all of a non-empty list implies holding one of it. */
  lemma AllImpliesAny(roles: seq<string>, session: Option<Session>)
    requires roles != []
    ensures RequireAllRoles(roles, session).Continue? ==> RequireAnyRole(roles, session).Continue?
  {
    if RequireAllRoles(roles, session).Continue? {
      assert roles[0] in roles;
    }
  }

  /** Role guards answer 401, 403 or pass; requireAuth passes or redirects. */
  lemma GuardOutcomeKinds(role: string, roles: seq<string>, session: Option<Session>, url: string)
    ensures RequireAuth(session, url).Continue? || RequireAuth(session, url).Redirect?
    ensures var o := RequireRole(role, session); o.Continue? || (o.Reject? && o.status in {401, 403})
    ensures var o := RequireAnyRole(roles, session); o.Continue? || (o.Reject? && o.status in {401, 403})
    ensures var o := RequireAllRoles(roles, session); o.Continue? || (o.Reject? && o.status in {401, 403})
  {
  }

  function WithRoles(roles: seq<string>): Option<Session> {
    Some(EmptySession.(accessToken := Some("t"), user := Some(User("u", None, None, Some(roles)))))
  }

  /** Admin/editor/viewer examples of the three role guards. */
  lemma RoleGuardExamples()
    ensures RequireRole("admin", WithRoles(["editor"])).Reject?
    ensures RequireRole("admin", WithRoles(["admin", "editor"])) == Continue
    ensures RequireAnyRole(["admin", "editor"], WithRoles(["editor"])) == Continue
    ensures RequireAnyRole(["admin", "editor"], WithRoles([])).status == 403
    ensures RequireAllRoles(["admin", "editor"], WithRoles(["admin"])).status == 403
    ensures RequireAllRoles(["admin", "editor"], WithRoles(["admin", "editor", "viewer"])) == Continue
  {
    assert "editor" in ["admin", "editor"] && "editor" in UserRoles(WithRoles(["editor"]));
    assert "editor" !in UserRoles(WithRoles(["admin"]));
    assert "editor" in ["admin", "editor"];
  }
}
