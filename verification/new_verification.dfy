/** `newVerificationAction`: redeem a verification token, mark the account verified, then sign
    the user in without a password. */
module NewVerification {
  import opened Common
  import opened Routes
  import opened Store
  import opened Boundary

  const InvalidVerificationToken: string := "Invalid verification token."
  const VerificationTokenExpired: string := "This verification token has expired."
  const EmailVerified: string := "Email verified successfully!"

  /** The whole action for the token value `token` at time `now`. */
  function NewVerificationAction(token: string, db: Db, env: Env, now: int, o: Oracles): Step {
    match FindByValue(db.verificationTokens, token)
    case None => Step(Error(InvalidVerificationToken), db, [], None)
    case Some(row) =>
      if row.expires < now then Step(Error(VerificationTokenExpired), db, [], None)
      else if row.email !in db.users then Step(Error(NoUserForToken), db, [], None)
      else
        var user := db.users[row.email];
        var db1 := db.(users := db.users[row.email := user.(emailVerified := Some(now))],
                       verificationTokens := DeleteById(db.verificationTokens, row.id));
        if !Truthy(env.credentialProviderSecret) then Step(Error(PasswordlessSecretMissing), db1, [], None)
        else if !Truthy(env.serverSecret) then Step(Error(ServerSecretMissing), db1, [], None)
        else
          var request := CredentialsSignIn(user.email, None, env.serverSecret.value, env.credentialProviderSecret.value,
                                           user, DefaultLoginRedirect(user.role));
          Step(AfterSignIn(o.signIn, EmailVerified), db1, [], Some(request))
  }

  /** An unknown token, an expired one (a token expiring exactly now is still good), and a
      token whose email has no account are refused without any change. */
  lemma NewVerificationRejections(token: string, db: Db, env: Env, now: int, o: Oracles)
    ensures var s := NewVerificationAction(token, db, env, now, o);
      var found := FindByValue(db.verificationTokens, token);
      (found.None? || found.value.expires < now || found.value.email !in db.users) <==>
        (s.db == db && s.response.Error? &&
         s.response.message in {InvalidVerificationToken, VerificationTokenExpired, NoUserForToken})
    ensures var s := NewVerificationAction(token, db, env, now, o);
      var found := FindByValue(db.verificationTokens, token);
      s.outbox == [] &&
      (found.None? ==> s.response == Error(InvalidVerificationToken)) &&
      (found.Some? && found.value.expires < now ==> s.response == Error(VerificationTokenExpired))
  {
  }

  /** A good token verifies the account at `now` and is consumed (exactly its row is deleted, so
      its email has no token left) before the secrets are checked: the database afterwards is the
      same whatever the environment, other accounts and tables are untouched, and a missing
      secret is then reported over the committed change. */
  lemma NewVerificationCommitsBeforeSecrets(token: string, db: Db, env: Env, env2: Env, now: int, o: Oracles)
    requires UniqueRows(db.verificationTokens)
    requires var found := FindByValue(db.verificationTokens, token);
      found.Some? && now <= found.value.expires && found.value.email in db.users
    ensures var s := NewVerificationAction(token, db, env, now, o);
      var email := FindByValue(db.verificationTokens, token).value.email;
      s.db == NewVerificationAction(token, db, env2, now, o).db &&
      email in s.db.users && s.db.users[email].emailVerified == Some(now) &&
      s.db.users[email] == db.users[email].(emailVerified := Some(now)) &&
      (forall e :: e in db.users && e != email ==> e in s.db.users && s.db.users[e] == db.users[e]) &&
      FindByEmail(s.db.verificationTokens, email).None? &&
      s.db.resetTokens == db.resetTokens && s.db.otps == db.otps && s.outbox == []
    ensures var s := NewVerificationAction(token, db, env, now, o);
      var row := FindByValue(db.verificationTokens, token).value;
      (forall x :: x in s.db.verificationTokens <==> x in db.verificationTokens && x.id != row.id) &&
      s.db.confirmations == db.confirmations && s.db.users.Keys == db.users.Keys
    ensures var s := NewVerificationAction(token, db, env, now, o);
      (!Truthy(env.credentialProviderSecret) ==> s.response == Error(PasswordlessSecretMissing) && s.signIn.None?) &&
      (Truthy(env.credentialProviderSecret) && !Truthy(env.serverSecret) ==>
         s.response == Error(ServerSecretMissing) && s.signIn.None?)
  {
    var row := FindByValue(db.verificationTokens, token).value;
    var rest := DeleteById(db.verificationTokens, row.id);
    var user := db.users[row.email];
    var db1 := db.(users := db.users[row.email := user.(emailVerified := Some(now))], verificationTokens := rest);
    assert NewVerificationAction(token, db, env, now, o).db == db1;
    assert NewVerificationAction(token, db, env2, now, o).db == db1;
    forall x | x in rest ensures x.email != row.email {
      if x.email == row.email { UniqueMembers(db.verificationTokens, x, row); }
    }
    assert forall i :: 0 <= i < |rest| ==> rest[i] in rest;
  }

  /** With both secrets present, `signIn` receives the account as it was read, before the update
      (so its `emailVerified` is the old value), with no password and the role's dashboard, and its
      failures are mapped to messages as log-in maps them. */
  lemma NewVerificationSignsInStoredUser(token: string, db: Db, env: Env, now: int, o: Oracles)
    requires var found := FindByValue(db.verificationTokens, token);
      found.Some? && now <= found.value.expires && found.value.email in db.users
    requires Truthy(env.credentialProviderSecret) && Truthy(env.serverSecret)
    ensures var s := NewVerificationAction(token, db, env, now, o);
      var user := db.users[FindByValue(db.verificationTokens, token).value.email];
      s.signIn.Some? && s.signIn.value.user == user && s.signIn.value.password.None? &&
      s.signIn.value.redirectTo == DefaultLoginRedirect(user.role) &&
      s.signIn.value.credentialProviderSecret == env.credentialProviderSecret.value &&
      (s.response.Success? <==> o.signIn.SignedIn?) &&
      s.response == AfterSignIn(o.signIn, EmailVerified)
  {
  }
}
