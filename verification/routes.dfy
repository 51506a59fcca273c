/** The static route tables consulted by the route guard. */
module Routes {
  import opened Text
  import opened Roles

  const HomeRoute: string := "/"

  /** Routes reachable without a session. */
  const PublicRoutes: seq<string> :=
    ["/", "/new-verification", "/services", "/contact", "/about", "/privacy", "/pricing"]

  const StaticAuthRoutes: seq<string> := ["/error", "/reset", "/new-password", "/login", "/signup"]

  /** Prefix used by the authentication API handlers. */
  const ApiAuthPrefix: string := "/api/auth"

  /** One route per role: `prefix` followed by the role's lower-cased name. */
  function RoleRoutes(prefix: string, roles: seq<UserRole>): (rs: seq<string>)
    ensures |rs| == |roles|
    ensures forall i :: 0 <= i < |roles| ==> rs[i] == prefix + Lower(RoleName(roles[i]))
  {
    if |roles| == 0 then [] else [prefix + Lower(RoleName(roles[0]))] + RoleRoutes(prefix, roles[1..])
  }

  /** The static auth routes, then one sign-up route per role, then one log-in route per role. */
  function AuthRoutes(): seq<string> {
    StaticAuthRoutes + RoleRoutes("/signup/", AllRoles) + RoleRoutes("/login/", AllRoles)
  }

  /** The lower-cased enum strings, as they appear in URLs. */
  lemma LowerRoleName(role: UserRole)
    ensures Lower(RoleName(role)) ==
      match role
      case Xvariate => "xvariate"
      case Ambassador => "ambassador"
      case Client => "client"
      case Freelancer => "freelancer"
  {
    match role
    case Xvariate => assert Lower("XVARIATE") == "xvariate";
    case Ambassador => assert Lower("AMBASSADOR") == "ambassador";
    case Client => assert Lower("CLIENT") == "client";
    case Freelancer => assert Lower("FREELANCER") == "freelancer";
  }

  /** Default landing path for a role; anything that is not one of the first three is a client. */
  function DefaultLoginRedirect(role: UserRole): (path: string)
    ensures path == "/" + Lower(RoleName(role))
  {
    LowerRoleName(role);
    if role == Xvariate then "/xvariate"
    else if role == Freelancer then "/freelancer"
    else if role == Ambassador then "/ambassador"
    else "/client"
  }

  /** Distinct roles land on distinct dashboards. */
  lemma DefaultLoginRedirectInjective(a: UserRole, b: UserRole)
    requires DefaultLoginRedirect(a) == DefaultLoginRedirect(b)
    ensures a == b
  {
  }

  lemma {:induction false} AuthRoutesShape()
    ensures |AuthRoutes()| == |StaticAuthRoutes| + 2 * |AllRoles|
    ensures AuthRoutes()[..|StaticAuthRoutes|] == StaticAuthRoutes
  {
    assert AuthRoutes()[..|StaticAuthRoutes|] == StaticAuthRoutes;
  }

  /** Both per-role auth routes of every role are in the table. */
  lemma {:induction false} RoleAuthRoutesListed(r: UserRole)
    ensures "/signup/" + Lower(RoleName(r)) in AuthRoutes()
    ensures "/login/" + Lower(RoleName(r)) in AuthRoutes()
  {
    ParseRoleName(r);
    var i :| 0 <= i < |AllRoles| && AllRoles[i] == r;
    var n := |StaticAuthRoutes|;
    assert AuthRoutes()[n + i] == "/signup/" + Lower(RoleName(r));
    assert AuthRoutes()[n + |AllRoles| + i] == "/login/" + Lower(RoleName(r));
  }

  /** Each generated auth route extends the static `/login` or `/signup` route. */
  lemma {:induction false} GeneratedAuthRoutesExtendStatic()
    ensures forall i :: |StaticAuthRoutes| <= i < |AuthRoutes()| ==>
      "/login" <= AuthRoutes()[i] || "/signup" <= AuthRoutes()[i]
  {
    var n := |StaticAuthRoutes|;
    var m := |AllRoles|;
    forall i | n <= i < |AuthRoutes()|
      ensures "/login" <= AuthRoutes()[i] || "/signup" <= AuthRoutes()[i]
    {
      if i < n + m {
        assert AuthRoutes()[i] == "/signup/" + Lower(RoleName(AllRoles[i - n]));
        assert "/signup" <= "/signup/";
      } else {
        assert AuthRoutes()[i] == "/login/" + Lower(RoleName(AllRoles[i - n - m]));
        assert "/login" <= "/login/";
      }
    }
  }

  lemma HomeIsPublic()
    ensures HomeRoute == "/" && HomeRoute in PublicRoutes
  {
  }
}
