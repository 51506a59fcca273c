/** `oAuthAction`: check the requested role, remember it in a short-lived cookie, and hand over
    to the OAuth provider. */
module OAuth {
  import opened Common
  import opened Roles
  import opened Routes
  import opened Boundary
  import opened Schemas

  datatype SameSite = SameSiteNone | SameSiteLax

  /** A cookie as `cookieStore.set(name, value, options)` writes it. */
  datatype Cookie = Cookie(name: string, value: string, httpOnly: bool, secure: bool, sameSite: SameSite, maxAge: nat)

  /** The action's result: its response, the cookie it set, and the `signIn` call it made. */
  datatype OAuthStep = OAuthStep(response: Response, cookie: Option<Cookie>, signIn: Option<SignInRequest>)

  const PendingRoleCookie: string := "pending_oauth_role"

  /** Five minutes, in seconds. */
  const PendingRoleMaxAge: nat := 300

  /** The whole action. `signIn` for an OAuth provider ends by throwing its redirect, so a
      returning call gives no result and every throw escapes unchanged. */
  function OAuthAction(form: OAuthForm, env: Env, outcome: SignInOutcome): OAuthStep {
    var parsed := ParseOAuth(form);
    if parsed.None? then OAuthStep(Error(ValidationFailed), None, None)
    else
      var role := ParseRole(parsed.value.userRole);
      if role.None? then OAuthStep(Error(InvalidUserRole), None, None)
      else
        var isProd := env.nodeEnv == Some("production");
        var cookie := Cookie(PendingRoleCookie, parsed.value.userRole, true, isProd,
                             if isProd then SameSiteNone else SameSiteLax, PendingRoleMaxAge);
        var request := ProviderSignIn(parsed.value.provider, DefaultLoginRedirect(role.value));
        var response := match outcome case SignedIn => NoResult case Throws(t) => Rethrown(t);
        OAuthStep(response, Some(cookie), Some(request))
  }

  /** The cookie is set exactly when the role is one of the enum's values; it is HTTP-only, lives
      five minutes, and holds the requested role, whose dashboard is the redirect. A form that
      fails the schema, or names no role, gets the matching error and no cookie. */
  lemma OAuthCookieCarriesRole(form: OAuthForm, env: Env, outcome: SignInOutcome)
    ensures var s := OAuthAction(form, env, outcome);
      s.cookie.Some? <==> (ParseOAuth(form).Some? && ParseOAuth(form).value.userRole in RoleValues())
    ensures var s := OAuthAction(form, env, outcome);
      s.cookie.Some? ==>
        s.cookie.value.name == PendingRoleCookie && s.cookie.value.httpOnly &&
        s.cookie.value.maxAge == 300 &&
        ParseRole(s.cookie.value.value).Some? &&
        s.signIn == Some(ProviderSignIn(ParseOAuth(form).value.provider,
                                        DefaultLoginRedirect(ParseRole(s.cookie.value.value).value)))
    ensures var s := OAuthAction(form, env, outcome);
      s.cookie.Some? ==> s.cookie.value.value == ParseOAuth(form).value.userRole
    ensures var s := OAuthAction(form, env, outcome);
      s.cookie.None? <==> s.response.Error?
    ensures var s := OAuthAction(form, env, outcome);
      (ParseOAuth(form).None? ==> s.response == Error(ValidationFailed)) &&
      (ParseOAuth(form).Some? && ParseRole(ParseOAuth(form).value.userRole).None? ==>
        s.response == Error(InvalidUserRole))
  {
  }

  /** The cookie is `Secure` and `SameSite=None` exactly in production, and `SameSite=None` is
      never sent without `Secure`. */
  lemma OAuthCookieSecurity(form: OAuthForm, env: Env, outcome: SignInOutcome)
    requires OAuthAction(form, env, outcome).cookie.Some?
    ensures var c := OAuthAction(form, env, outcome).cookie.value;
      (c.secure <==> env.nodeEnv == Some("production")) &&
      (c.sameSite == SameSiteNone <==> c.secure) &&
      (c.sameSite == SameSiteLax <==> !c.secure)
  {
  }

  /** Unlike the credentials flows, nothing a provider throws is turned into an error message:
      it escapes as it was thrown, and the cookie stays set. */
  lemma OAuthRethrowsEverything(form: OAuthForm, env: Env, t: Thrown)
    requires OAuthAction(form, env, SignedIn).cookie.Some?
    ensures OAuthAction(form, env, Throws(t)).response == Rethrown(t)
    ensures OAuthAction(form, env, Throws(t)).cookie == OAuthAction(form, env, SignedIn).cookie
    ensures OAuthAction(form, env, SignedIn).response == NoResult
  {
  }
}
