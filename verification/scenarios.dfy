/** Properties of sequences of actions over one database: codes and tokens work once, a fresh
    account cannot skip verification, a reset token sets a password the next log-in accepts,
    and the credentials the actions send are the ones `authorize` admits. */
module Scenarios {
  import opened Common
  import opened Roles
  import opened Helpers
  import opened Store
  import opened UpsertTokens
  import opened Boundary
  import opened Schemas
  import opened Login
  import opened Signup
  import opened NewVerification
  import opened PasswordReset
  import opened AuthConfig

  /** A two-factor code works once: after a log-in that consumed it, the same request is refused
      as "Invalid OTP" at any later time and changes nothing. */
  lemma OtpSingleUse(form: LogInForm, userRole: Option<string>, db: Db, env: Env, now: int, later: int, o: Oracles)
    requires PassesPassword(form, userRole, db, env, o)
    requires UniqueRows(db.otps) && UniqueConfirmations(db.confirmations)
    requires var user := FoundUser(form, userRole, db, o);
      user.isTwoFactorEnabled && user.email != "" && Truthy(ParseLogIn(form, o.isEmail).value.otp) &&
      FindByEmail(db.otps, user.email).Some? &&
      FindByEmail(db.otps, user.email).value.value == ParseLogIn(form, o.isEmail).value.otp.value &&
      now <= FindByEmail(db.otps, user.email).value.expires
    ensures var first := LoginAction(form, userRole, db, env, now, o);
      var second := LoginAction(form, userRole, first.db, env, later, o);
      first.signIn.Some? && second.response == Error(InvalidOtp) && Inert(second, first.db)
  {
    LoginWithOtp(form, userRole, db, env, now, o);
    var first := LoginAction(form, userRole, db, env, now, o);
    assert PassesPassword(form, userRole, first.db, env, o);
    assert FoundUser(form, userRole, first.db, o) == FoundUser(form, userRole, db, o);
  }

  /** A verification token works once: after it verified an account, presenting it again is
      refused as an invalid token. */
  lemma VerificationTokenSingleUse(token: string, db: Db, env: Env, now: int, later: int, o: Oracles)
    requires UniqueRows(db.verificationTokens)
    requires var found := FindByValue(db.verificationTokens, token);
      found.Some? && now <= found.value.expires && found.value.email in db.users &&
      forall x :: x in db.verificationTokens && x.value == token ==> x == found.value
    ensures var first := NewVerificationAction(token, db, env, now, o);
      var second := NewVerificationAction(token, first.db, env, later, o);
      first.db.users[FindByValue(db.verificationTokens, token).value.email].emailVerified == Some(now) &&
      second.response == Error(InvalidVerificationToken) && second.db == first.db
  {
    var row := FindByValue(db.verificationTokens, token).value;
    NewVerificationCommitsBeforeSecrets(token, db, env, env, now, o);
    DeletedValueGone(db.verificationTokens, row, token);
  }

  /** Right after signing up, logging in with any password of six or more characters does not
      reach the password check: the account is unverified, so the sign-up token is replaced by a
      new one (still exactly one for the email) and mailed again. */
  lemma SignupThenLoginBeforeVerification(sf: SignUpForm, db: Db, now: int, newUserId: string, o: Oracles,
                                          password: string, userRole: Option<string>, env: Env, later: int, o2: Oracles)
    requires UniqueRows(db.verificationTokens) && UsersKeyed(db.users)
    requires SignupAction(sf, db, now, o, newUserId, NoFault).response.Success?
    requires o2.isEmail == o.isEmail && 6 <= |password| && ParseOptionalRole(userRole).Some?
    requires o.hash(ParseSignUp(sf, o.isEmail).value.password) != ""
    ensures var s1 := SignupAction(sf, db, now, o, newUserId, NoFault);
      var email := ParseSignUp(sf, o.isEmail).value.email;
      var s2 := LoginAction(LogInForm(Str(email), Str(password), Absent), userRole, s1.db, env, later, o2);
      s2.response == Success(VerifyInbox) && s2.signIn.None? &&
      EmailCount(s2.db.verificationTokens, email) == 1 &&
      FindByEmail(s2.db.verificationTokens, email).Some? &&
      FindByEmail(s2.db.verificationTokens, email).value.value == o2.uuid
  {
    var s1 := SignupAction(sf, db, now, o, newUserId, NoFault);
    var v := ParseSignUp(sf, o.isEmail).value;
    SignupCreatesUnverifiedAccount(sf, db, now, o, newUserId);
    SignupTokensUnique(sf, db, now, o, newUserId);
    LoginUnverifiedAccount(v.email, password, password, userRole, s1.db, env, env, later, o2);
  }

  /** A reset token mailed to an account, redeemed within its five minutes, sets a password the
      new password matches; presenting the same token again is refused as invalid. */
  lemma ResetThenNewPassword(rf: ResetForm, db: Db, now: int, o: Oracles, pf: NewPasswordForm, later: int, o2: Oracles, much: int)
    requires UniqueRows(db.resetTokens) && UsersKeyed(db.users)
    requires forall x :: x in db.resetTokens ==> x.value != o.uuid
    requires o.uuid != ""
    requires ParseReset(rf, o.isEmail).Some? && ResetAction(rf, db, now, o).response.Success?
    requires ParseNewPassword(pf).Some?
    requires now <= later <= ExpiryInMinutes(now, TokenLifetimeMinutes)
    ensures var s1 := ResetAction(rf, db, now, o);
      var email := ParseReset(rf, o.isEmail).value;
      var s2 := NewPasswordAction(pf, Some(o.uuid), s1.db, later, o2);
      var s3 := NewPasswordAction(pf, Some(o.uuid), s2.db, much, o2);
      s2.response.SuccessRedirect? && email in s2.db.users &&
      s2.db.users[email].password.Some? &&
      Compare(o2, ParseNewPassword(pf).value.password, s2.db.users[email].password.value) &&
      s3.response == Error(InvalidToken) && s3.db == s2.db
  {
    var s1 := ResetAction(rf, db, now, o);
    var email := ParseReset(rf, o.isEmail).value;
    var u := Upsert(db.resetTokens, email, o.uuid, now);
    UpsertResult(db.resetTokens, email, o.uuid, now);
    UpsertFreshValue(db.resetTokens, email, o.uuid, now);
    assert s1.db == db.(resetTokens := u.table);
    NewPasswordUpdates(pf, Some(o.uuid), s1.db, later, o2);
    NewPasswordTokenSingleUse(pf, Some(o.uuid), s1.db, later, much, o2);
  }

  /** The credentials a log-in hands to `signIn` pass `authorize` under the same environment, and
      `authorize` returns the very user record the action read. */
  lemma LoginCredentialsAuthorized(form: LogInForm, userRole: Option<string>, db: Db, env: Env, now: int, o: Oracles)
    requires LoginAction(form, userRole, db, env, now, o).signIn.Some?
    ensures var r := LoginAction(form, userRole, db, env, now, o).signIn.value;
      r.CredentialsSignIn? &&
      Authorize(Some(ProviderCredentials(r.user, r.credentialProviderSecret)), env.credentialProviderSecret) == Some(r.user) &&
      r.user == FoundUser(form, userRole, db, o)
  {
  }

  /** The same holds for the passwordless sign-in after email verification. */
  lemma VerificationCredentialsAuthorized(token: string, db: Db, env: Env, now: int, o: Oracles)
    requires NewVerificationAction(token, db, env, now, o).signIn.Some?
    ensures var r := NewVerificationAction(token, db, env, now, o).signIn.value;
      r.CredentialsSignIn? &&
      Authorize(Some(ProviderCredentials(r.user, r.credentialProviderSecret)), env.credentialProviderSecret) == Some(r.user)
  {
  }
}
