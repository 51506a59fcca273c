/** `resetVerificationToken`: replace a verification token, looked up by its value, by a fresh
    one for the same email and mail it. */
module ResendVerification {
  import opened Common
  import opened Store
  import opened UpsertTokens
  import opened Boundary

  const VerificationResent: string := "Verification token has been sent."

  /** The whole action. When no token holds `token`, the upsert is called with an undefined
      email and the database rejects the call with `missingEmail`, which escapes rethrown. */
  function ResendVerificationAction(token: string, db: Db, now: int, o: Oracles, missingEmail: Thrown): Step {
    match FindByValue(db.verificationTokens, token)
    case None => Step(Rethrown(UpsertFailure(missingEmail, VerificationTokenFailure)), db, [], None)
    case Some(prior) =>
      var issued := UpsertVerificationToken(db, prior.email, o.uuid, now);
      if issued.1.email !in db.users then Step(Error(NoUserForToken), issued.0, [], None)
      else Step(Success(VerificationResent), issued.0,
                [VerificationMail(issued.1.email, issued.1.value, db.users[issued.1.email].name)], None)
  }

  /** A known token, expired or not, is replaced: its email ends up with exactly one token, the
      new value, and only the verification tokens change. The new token is stored even when no
      account has that email; the mail goes out only when one does. */
  lemma ResendReplacesToken(token: string, db: Db, now: int, o: Oracles, missingEmail: Thrown)
    requires UniqueRows(db.verificationTokens)
    requires FindByValue(db.verificationTokens, token).Some?
    ensures var s := ResendVerificationAction(token, db, now, o, missingEmail);
      var email := FindByValue(db.verificationTokens, token).value.email;
      s.db == db.(verificationTokens := s.db.verificationTokens) &&
      EmailCount(s.db.verificationTokens, email) == 1 &&
      FindByEmail(s.db.verificationTokens, email).Some? &&
      FindByEmail(s.db.verificationTokens, email).value.value == o.uuid &&
      (forall e :: e != email ==> FindByEmail(s.db.verificationTokens, e) == FindByEmail(db.verificationTokens, e)) &&
      s.signIn.None? &&
      (email in db.users ==>
        s.response == Success(VerificationResent) &&
        s.outbox == [VerificationMail(email, o.uuid, db.users[email].name)]) &&
      (email !in db.users ==> s.response == Error(NoUserForToken) && s.outbox == [])
  {
    var email := FindByValue(db.verificationTokens, token).value.email;
    var t := Upsert(db.verificationTokens, email, o.uuid, now).table;
    UpsertResult(db.verificationTokens, email, o.uuid, now);
    forall e | e != email ensures FindByEmail(t, e) == FindByEmail(db.verificationTokens, e) {
      ViewIsFind(t, e);
      ViewIsFind(db.verificationTokens, e);
    }
  }

  /** An unknown token changes nothing and lets the database's complaint escape as an `Error`. */
  lemma ResendUnknownTokenThrows(token: string, db: Db, now: int, o: Oracles, missingEmail: Thrown)
    requires FindByValue(db.verificationTokens, token).None?
    ensures var s := ResendVerificationAction(token, db, now, o, missingEmail);
      s.db == db && s.outbox == [] && s.response.Rethrown? && s.response.thrown.PlainError? &&
      s.response.thrown.message == (if IsErrorInstance(missingEmail) then missingEmail.message else VerificationTokenFailure)
  {
  }
}
