/** The per-request route guard. */
module Middleware {
  import opened Common
  import opened Text
  import opened Roles
  import opened Routes

  datatype Decision = Allow | Redirect(path: string)

  /** Dashboard prefix to log-in page, in the table's insertion order. */
  const PathToLoginRoute: seq<(string, string)> := [
    ("/ambassador", "/login/ambassador"),
    ("/client", "/login/client"),
    ("/freelancer", "/login/freelancer"),
    ("/xvariate", "/login/xvariate")
  ]

  const DefaultLoginPath: string := "/login/client"

  /** Drops one trailing slash, except from the root path. */
  function NormalizePathname(p: string): (r: string)
    ensures r == p || (p != "/" && r + "/" == p)
    ensures r != p <==> (p != "/" && |p| > 0 && p[|p| - 1] == '/')
  {
    if p != "/" && |p| > 0 && p[|p| - 1] == '/' then p[..|p| - 1] else p
  }

  /** Normalising twice can differ from normalising once: only one slash is dropped per call. */
  lemma NormalizeNotIdempotent()
    ensures NormalizePathname("a//") == "a/"
    ensures NormalizePathname(NormalizePathname("a//")) == "a"
  {
  }

  /** `routes.some(route => p.startsWith(route))` */
  predicate MatchesAny(routes: seq<string>, p: string) {
    |routes| > 0 && (StartsWith(p, routes[0]) || MatchesAny(routes[1..], p))
  }

  /** A path matches the table exactly when some entry is a prefix of it. */
  lemma {:induction false} MatchesAnyMeans(routes: seq<string>, p: string)
    ensures MatchesAny(routes, p) <==> exists i :: 0 <= i < |routes| && routes[i] <= p
  {
    if |routes| > 0 {
      MatchesAnyMeans(routes[1..], p);
      StartsWithMeans(p, routes[0]);
      assert forall i :: 1 <= i < |routes| ==> routes[i] == routes[1..][i - 1];
    }
  }

  lemma {:induction false} MatchesAnyAppend(a: seq<string>, b: seq<string>, p: string)
    ensures MatchesAny(a + b, p) <==> MatchesAny(a, p) || MatchesAny(b, p)
  {
    if |a| > 0 {
      assert (a + b)[1..] == a[1..] + b;
      MatchesAnyAppend(a[1..], b, p);
    } else {
      assert a + b == b;
    }
  }

  /** The log-in route of the first dashboard prefix of `p`, or `default` when none matches:
      the `for … of Object.entries(PATH_TO_LOGIN_ROUTE)` loop with its `break`. */
  function FirstLoginRoute(table: seq<(string, string)>, p: string, default: string): string {
    if |table| == 0 then default
    else if StartsWith(p, table[0].0) then table[0].1
    else FirstLoginRoute(table[1..], p, default)
  }

  /** The loop picks the first entry whose dashboard prefixes `p`, and falls back to `default`. */
  lemma {:induction false} FirstLoginRouteMeans(table: seq<(string, string)>, p: string, default: string)
    ensures (forall i :: 0 <= i < |table| ==> !(table[i].0 <= p)) ==>
      FirstLoginRoute(table, p, default) == default
    ensures (exists i :: 0 <= i < |table| && table[i].0 <= p) ==>
      exists i :: 0 <= i < |table| && table[i].0 <= p && FirstLoginRoute(table, p, default) == table[i].1 &&
        forall j :: 0 <= j < i ==> !(table[j].0 <= p)
  {
    if |table| > 0 {
      StartsWithMeans(p, table[0].0);
      FirstLoginRouteMeans(table[1..], p, default);
      assert forall i :: 1 <= i < |table| ==> table[i] == table[1..][i - 1];
      if !(table[0].0 <= p) && exists i :: 0 <= i < |table| && table[i].0 <= p {
        var i :| 0 <= i < |table| && table[i].0 <= p;
        assert table[1..][i - 1].0 <= p;
      }
    }
  }

  /** The path the guard classifies: lower-cased, then normalised. */
  function GuardPath(pathname: string): string {
    NormalizePathname(Lower(pathname))
  }

  /** The middleware's decision, exactly as the source orders its checks. The session role is
      read but never consulted. */
  function Guard(pathname: string, isLoggedIn: bool, role: Option<UserRole>): Decision {
    var p := GuardPath(pathname);
    if ApiAuthPrefix <= p then Allow
    else if p == HomeRoute then Allow
    else
      var isPublicRoute := MatchesAny(PublicRoutes, p);
      var isAuthRoute := MatchesAny(AuthRoutes(), p);
      if isAuthRoute then
        (if isLoggedIn then Redirect(DefaultLoginRedirect(Xvariate)) else Allow)
      else if !isLoggedIn && !isPublicRoute then
        Redirect(FirstLoginRoute(PathToLoginRoute, p, DefaultLoginPath))
      else Allow
  }

  /** Classification ignores letter case. */
  lemma GuardCaseInsensitive(pathname: string, isLoggedIn: bool, role: Option<UserRole>)
    ensures Guard(pathname, isLoggedIn, role) == Guard(Lower(pathname), isLoggedIn, role)
  {
    LowerIdempotent(pathname);
  }

  /** The decision does not depend on the session's role. */
  lemma GuardIgnoresRole(pathname: string, isLoggedIn: bool, a: Option<UserRole>, b: Option<UserRole>)
    ensures Guard(pathname, isLoggedIn, a) == Guard(pathname, isLoggedIn, b)
  {
  }

  /** The authentication API and the home page are always let through. */
  lemma GuardAllowsApiAndHome(pathname: string, isLoggedIn: bool, role: Option<UserRole>)
    requires ApiAuthPrefix <= GuardPath(pathname) || GuardPath(pathname) == HomeRoute
    ensures Guard(pathname, isLoggedIn, role) == Allow
  {
  }

  /** Auth routes come before the public rule: a session is sent to `/xvariate` whatever its
      role, and a visitor without one is let through. */
  lemma GuardAuthRoute(pathname: string, isLoggedIn: bool, role: Option<UserRole>)
    requires !(ApiAuthPrefix <= GuardPath(pathname)) && GuardPath(pathname) != HomeRoute
    requires MatchesAny(AuthRoutes(), GuardPath(pathname))
    ensures isLoggedIn ==> Guard(pathname, isLoggedIn, role) == Redirect("/xvariate")
    ensures !isLoggedIn ==> Guard(pathname, isLoggedIn, role) == Allow
  {
    LowerRoleName(Xvariate);
  }

  /** A logged-in user is allowed everywhere except on auth routes: no role is enforced. */
  lemma GuardLoggedInElsewhere(pathname: string, role: Option<UserRole>)
    requires !MatchesAny(AuthRoutes(), GuardPath(pathname))
    ensures Guard(pathname, true, role) == Allow
  {
  }

  /** Because `"/"` is a public route matched by prefix, every slash-prefixed path is public. */
  lemma EverySlashPathIsPublic(p: string)
    requires "/" <= p
    ensures MatchesAny(PublicRoutes, p)
  {
    StartsWithMeans(p, PublicRoutes[0]);
  }

  lemma {:induction false} GuardPathKeepsLeadingSlash(pathname: string)
    requires "/" <= pathname
    ensures "/" <= GuardPath(pathname)
  {
    LowerKeepsSlashPrefix(pathname);
    var l := Lower(pathname);
    if l != "/" && l[|l| - 1] == '/' {
      assert l[..|l| - 1][0] == l[0];
    }
  }

  /** Hence a slash-prefixed request is never sent to a log-in page: it is allowed, or a session
      on an auth route is sent to `/xvariate`. */
  lemma {:induction false} GuardNeverSendsSlashPathsToLogin(pathname: string, isLoggedIn: bool, role: Option<UserRole>)
    requires "/" <= pathname
    ensures Guard(pathname, isLoggedIn, role) == Allow || Guard(pathname, isLoggedIn, role) == Redirect("/xvariate")
    ensures !isLoggedIn ==> Guard(pathname, isLoggedIn, role) == Allow
  {
    GuardPathKeepsLeadingSlash(pathname);
    EverySlashPathIsPublic(GuardPath(pathname));
    LowerRoleName(Xvariate);
  }

  /** Every dashboard prefix starts with a slash, so a path without one always falls back to the
      client log-in page. */
  lemma NoDashboardMatchWithoutSlash(p: string)
    requires !("/" <= p)
    ensures FirstLoginRoute(PathToLoginRoute, p, DefaultLoginPath) == DefaultLoginPath
  {
    FirstLoginRouteMeans(PathToLoginRoute, p, DefaultLoginPath);
    forall i | 0 <= i < |PathToLoginRoute|
      ensures !(PathToLoginRoute[i].0 <= p)
    {
      assert PathToLoginRoute[i].0[..1] == "/";
    }
  }

  /** When the unauthenticated redirect does fire, it targets the client log-in page. */
  lemma {:induction false} GuardUnauthenticatedRedirect(pathname: string, role: Option<UserRole>)
    requires Guard(pathname, false, role).Redirect?
    ensures Guard(pathname, false, role) == Redirect(DefaultLoginPath)
  {
    var p := GuardPath(pathname);
    if "/" <= p {
      EverySlashPathIsPublic(p);
    } else {
      NoDashboardMatchWithoutSlash(p);
    }
  }

  // ---------------------------------------------------------------------------------------
  // The guard as its comments and the documented behaviour describe it.

  /** Route matching with the root route matched exactly and every other route by prefix. */
  predicate MatchesAnyIntended(routes: seq<string>, p: string) {
    |routes| > 0 &&
    ((if routes[0] == "/" then p == "/" else StartsWith(p, routes[0])) || MatchesAnyIntended(routes[1..], p))
  }

  /** The intended matcher accepts a subset of what the prefix matcher accepts. */
  lemma {:induction false} IntendedMatchIsNarrower(routes: seq<string>, p: string)
    requires MatchesAnyIntended(routes, p)
    ensures MatchesAny(routes, p)
  {
    if !(if routes[0] == "/" then p == "/" else StartsWith(p, routes[0])) {
      IntendedMatchIsNarrower(routes[1..], p);
    }
  }

  predicate IsPublicIntended(p: string) {
    MatchesAnyIntended(PublicRoutes, p)
  }

  /** The dashboard for the session's role; a session without one lands on the client dashboard. */
  function SessionDashboard(role: Option<UserRole>): string {
    match role
    case Some(r) => DefaultLoginRedirect(r)
    case None => "/client"
  }

  function GuardIntended(pathname: string, isLoggedIn: bool, role: Option<UserRole>): Decision {
    var p := GuardPath(pathname);
    if ApiAuthPrefix <= p then Allow
    else if p == HomeRoute then Allow
    else if MatchesAny(AuthRoutes(), p) then
      (if isLoggedIn then Redirect(SessionDashboard(role)) else Allow)
    else if !isLoggedIn && !IsPublicIntended(p) then
      Redirect(FirstLoginRoute(PathToLoginRoute, p, DefaultLoginPath))
    else Allow
  }

  /** As written: an unauthenticated request for the client dashboard is let through. */
  lemma ClientDashboardOpenAsWritten()
    ensures Guard("/client", false, None) == Allow
  {
    EverySlashPathIsPublic(GuardPath("/client"));
  }

  lemma LoginFreelancerPath()
    ensures GuardPath("/login/freelancer") == "/login/freelancer"
  {
  }

  lemma {:induction false} LoginFreelancerIsAuthRoute(p: string)
    requires p == "/login/freelancer"
    ensures MatchesAny(StaticAuthRoutes, p)
    ensures !(ApiAuthPrefix <= p)
  {
    MatchesAnyMeans(StaticAuthRoutes, p);
    assert StaticAuthRoutes[3] <= p;
    assert ApiAuthPrefix[1] != p[1];
  }

  /** As written: a freelancer on its own log-in page is sent to the Xvariate dashboard. */
  lemma {:induction false} AuthRedirectIgnoresRoleAsWritten()
    ensures Guard("/login/freelancer", true, Some(Freelancer)) == Redirect("/xvariate")
  {
    var p := "/login/freelancer";
    LoginFreelancerPath();
    LoginFreelancerIsAuthRoute(p);
    MatchesAnyAppend(StaticAuthRoutes, RoleRoutes("/signup/", AllRoles), p);
    MatchesAnyAppend(StaticAuthRoutes + RoleRoutes("/signup/", AllRoles), RoleRoutes("/login/", AllRoles), p);
    GuardAuthRoute(p, true, Some(Freelancer));
  }

  /** A path whose second character differs from every route's matches none of them. */
  lemma {:induction false} NoMatchBySecondChar(routes: seq<string>, p: string)
    requires |p| >= 2
    requires forall i :: 0 <= i < |routes| ==> |routes[i]| >= 2 && routes[i][1] != p[1]
    ensures !MatchesAny(routes, p)
  {
    MatchesAnyMeans(routes, p);
  }

  lemma {:induction false} RoleRoutesSecondChar(prefix: string, roles: seq<UserRole>)
    requires |prefix| >= 2
    ensures forall i :: 0 <= i < |roles| ==>
      |RoleRoutes(prefix, roles)[i]| >= 2 && RoleRoutes(prefix, roles)[i][1] == prefix[1]
  {
  }

  /** A path that no static auth route matches and whose second character is neither `s` nor `l`
      matches no auth route: every generated route starts with `/signup/` or `/login/`. */
  lemma {:induction false} OutsideAuthRoutes(p: string)
    requires |p| >= 2 && p[1] != 's' && p[1] != 'l' && !MatchesAny(StaticAuthRoutes, p)
    ensures !MatchesAny(AuthRoutes(), p)
  {
    RoleRoutesSecondChar("/signup/", AllRoles);
    RoleRoutesSecondChar("/login/", AllRoles);
    NoMatchBySecondChar(RoleRoutes("/signup/", AllRoles), p);
    NoMatchBySecondChar(RoleRoutes("/login/", AllRoles), p);
    MatchesAnyAppend(StaticAuthRoutes, RoleRoutes("/signup/", AllRoles), p);
    MatchesAnyAppend(StaticAuthRoutes + RoleRoutes("/signup/", AllRoles), RoleRoutes("/login/", AllRoles), p);
  }

  /** No auth route is a prefix of a dashboard path. */
  lemma {:induction false} DashboardIsNotAuthRoute(r: UserRole)
    ensures !MatchesAny(AuthRoutes(), DefaultLoginRedirect(r))
  {
    var d := DefaultLoginRedirect(r);
    LowerRoleName(r);
    DashboardUnmatched(r);
    StaticAuthHasNoRoot();
    DiffersEarlyNoMatch(StaticAuthRoutes, d);
    OutsideAuthRoutes(d);
  }

  predicate IsRootRoute(route: string) {
    |route| == 1 && route[0] == '/'
  }

  /** Every route other than the root differs from `p` in its second or third character. */
  predicate DiffersEarly(routes: seq<string>, p: string)
    requires |p| >= 3
  {
    |routes| == 0 ||
    ((IsRootRoute(routes[0]) || (|routes[0]| >= 3 && (routes[0][1] != p[1] || routes[0][2] != p[2])))
     && DiffersEarly(routes[1..], p))
  }

  predicate NoRootRoute(routes: seq<string>) {
    |routes| == 0 || (!IsRootRoute(routes[0]) && NoRootRoute(routes[1..]))
  }

  lemma {:induction false} DiffersEarlyNoMatch(routes: seq<string>, p: string)
    requires |p| >= 3 && DiffersEarly(routes, p)
    ensures !MatchesAnyIntended(routes, p)
    ensures NoRootRoute(routes) ==> !MatchesAny(routes, p)
  {
    if |routes| > 0 {
      DiffersEarlyNoMatch(routes[1..], p);
      StartsWithMeans(p, routes[0]);
      if IsRootRoute(routes[0]) {
        assert routes[0] == "/";
      } else {
        assert routes[0][1] != p[1] || routes[0][2] != p[2];
        assert !(routes[0] <= p);
      }
    }
  }

  /** When entry `k` prefixes `p` and every earlier dashboard differs from `p` in its second
      character, the loop stops at entry `k`. */
  lemma FirstLoginRouteAt(table: seq<(string, string)>, p: string, default: string, k: nat)
    requires k < |table| && table[k].0 <= p && |p| >= 2
    requires forall j :: 0 <= j < k ==> |table[j].0| >= 2 && table[j].0[1] != p[1]
    ensures FirstLoginRoute(table, p, default) == table[k].1
  {
    FirstLoginRouteMeans(table, p, default);
  }

  lemma StaticAuthHasNoRoot() ensures NoRootRoute(StaticAuthRoutes) {}

  lemma XvariateOffStatic() ensures DiffersEarly(StaticAuthRoutes, "/xvariate") {}
  lemma XvariateOffPublic() ensures DiffersEarly(PublicRoutes, "/xvariate") {}
  lemma AmbassadorOffStatic() ensures DiffersEarly(StaticAuthRoutes, "/ambassador") {}
  lemma AmbassadorOffPublic() ensures DiffersEarly(PublicRoutes, "/ambassador") {}
  lemma ClientOffStatic() ensures DiffersEarly(StaticAuthRoutes, "/client") {}
  lemma ClientOffPublic() ensures DiffersEarly(PublicRoutes, "/client") {}
  lemma FreelancerOffStatic() ensures DiffersEarly(StaticAuthRoutes, "/freelancer") {}
  lemma FreelancerOffPublic() ensures DiffersEarly(PublicRoutes, "/freelancer") {}

  /** No static auth route and no intended public route is a prefix of a dashboard. */
  lemma {:induction false} DashboardUnmatched(r: UserRole)
    ensures |DefaultLoginRedirect(r)| >= 3
    ensures DiffersEarly(StaticAuthRoutes, DefaultLoginRedirect(r))
    ensures DiffersEarly(PublicRoutes, DefaultLoginRedirect(r))
  {
    match r {
      case Xvariate => XvariateOffStatic(); XvariateOffPublic();
      case Ambassador => AmbassadorOffStatic(); AmbassadorOffPublic();
      case Client => ClientOffStatic(); ClientOffPublic();
      case Freelancer => FreelancerOffStatic(); FreelancerOffPublic();
    }
  }

  /** Each dashboard's log-in page is `/login` followed by the dashboard path. */
  lemma LoginTableShape()
    ensures forall k :: 0 <= k < |PathToLoginRoute| ==> PathToLoginRoute[k].1 == "/login" + PathToLoginRoute[k].0
  {
    assert PathToLoginRoute[0].1 == "/login" + PathToLoginRoute[0].0;
    assert PathToLoginRoute[1].1 == "/login" + PathToLoginRoute[1].0;
    assert PathToLoginRoute[2].1 == "/login" + PathToLoginRoute[2].0;
    assert PathToLoginRoute[3].1 == "/login" + PathToLoginRoute[3].0;
  }

  /** The dashboard table sends each dashboard to its own role's log-in page. */
  lemma {:induction false} DashboardLoginRoute(r: UserRole)
    ensures FirstLoginRoute(PathToLoginRoute, DefaultLoginRedirect(r), DefaultLoginPath)
      == "/login" + DefaultLoginRedirect(r)
  {
    var d := DefaultLoginRedirect(r);
    var k := match r case Ambassador => 0 case Client => 1 case Freelancer => 2 case Xvariate => 3;
    assert PathToLoginRoute[k].0 == d;
    LoginTableShape();
    FirstLoginRouteAt(PathToLoginRoute, d, DefaultLoginPath, k);
  }

  /** Intended: a visitor without a session on a path outside the API, the home page, the auth
      routes and the public routes is sent to the dashboard table's log-in page. */
  lemma GuardIntendedSendsToLogin(pathname: string, role: Option<UserRole>)
    requires !(ApiAuthPrefix <= GuardPath(pathname)) && GuardPath(pathname) != HomeRoute
    requires !MatchesAny(AuthRoutes(), GuardPath(pathname)) && !IsPublicIntended(GuardPath(pathname))
    ensures GuardIntended(pathname, false, role) ==
      Redirect(FirstLoginRoute(PathToLoginRoute, GuardPath(pathname), DefaultLoginPath))
  {
  }

  /** A dashboard path is already in the form the guard classifies. */
  lemma {:induction false} DashboardGuardPath(r: UserRole)
    ensures GuardPath(DefaultLoginRedirect(r)) == DefaultLoginRedirect(r)
    ensures DefaultLoginRedirect(r) != HomeRoute && !(ApiAuthPrefix <= DefaultLoginRedirect(r))
  {
    var d := DefaultLoginRedirect(r);
    LowerRoleName(r);
    LowerIdempotent(RoleName(r));
    assert Lower(d) == d by {
      assert forall i :: 1 <= i < |d| ==> d[i] == Lower(RoleName(r))[i - 1];
    }
    assert d[|d| - 1] != '/';
    assert d[2] != ApiAuthPrefix[2];
  }

  /** Intended: a visitor without a session is sent from each dashboard to that role's log-in page. */
  lemma {:induction false} DashboardsNeedLogin(r: UserRole)
    ensures GuardIntended(DefaultLoginRedirect(r), false, None) == Redirect("/login" + DefaultLoginRedirect(r))
  {
    var d := DefaultLoginRedirect(r);
    DashboardGuardPath(r);
    DashboardUnmatched(r);
    DashboardLoginRoute(r);
    DiffersEarlyNoMatch(PublicRoutes, d);
    DashboardIsNotAuthRoute(r);
    GuardIntendedSendsToLogin(d, None);
  }

  /** Intended: a session on any auth route is sent to its own role's dashboard. */
  lemma AuthRouteSendsSessionHome(pathname: string, r: UserRole)
    requires !(ApiAuthPrefix <= GuardPath(pathname)) && GuardPath(pathname) != HomeRoute
    requires MatchesAny(AuthRoutes(), GuardPath(pathname))
    ensures GuardIntended(pathname, true, Some(r)) == Redirect(DefaultLoginRedirect(r))
  {
  }

  /** Both guards agree on every request except a logged-out one that only the root route makes
      public and a logged-in one to an auth route. */
  lemma IntendedDiffersOnlyThere(pathname: string, isLoggedIn: bool, role: Option<UserRole>)
    requires !(!isLoggedIn && MatchesAny(PublicRoutes, GuardPath(pathname)) && !IsPublicIntended(GuardPath(pathname)))
    requires !(isLoggedIn && MatchesAny(AuthRoutes(), GuardPath(pathname)))
    ensures GuardIntended(pathname, isLoggedIn, role) == Guard(pathname, isLoggedIn, role)
  {
    GuardsDifferExactly(pathname, isLoggedIn, role);
  }

  /** The sessionless dashboard differs from `/xvariate` unless the session is a Xvariate one. */
  lemma SessionDashboardIsXvariate(role: Option<UserRole>)
    ensures SessionDashboard(role) == DefaultLoginRedirect(Xvariate) <==> role == Some(Xvariate)
  {
    if role.Some? && SessionDashboard(role) == DefaultLoginRedirect(Xvariate) {
      DefaultLoginRedirectInjective(role.value, Xvariate);
    }
  }

  /** Exactly where the guards differ: a logged-out request, off the auth routes, that only the
      root route makes public, and a logged-in request to an auth route from any session but a
      Xvariate one. */
  lemma GuardsDifferExactly(pathname: string, isLoggedIn: bool, role: Option<UserRole>)
    ensures var p := GuardPath(pathname);
      GuardIntended(pathname, isLoggedIn, role) != Guard(pathname, isLoggedIn, role) <==>
        !(ApiAuthPrefix <= p) && p != HomeRoute &&
        ((!isLoggedIn && !MatchesAny(AuthRoutes(), p) && !IsPublicIntended(p) && MatchesAny(PublicRoutes, p)) ||
         (isLoggedIn && MatchesAny(AuthRoutes(), p) && role != Some(Xvariate)))
  {
    var p := GuardPath(pathname);
    if IsPublicIntended(p) {
      IntendedMatchIsNarrower(PublicRoutes, p);
    }
    SessionDashboardIsXvariate(role);
  }
}
