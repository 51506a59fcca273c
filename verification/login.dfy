/** `loginAction`: schema and role checks, user lookup, the verification detour, the secrets
    check, the password check, the two-factor step, and finally `signIn`. */
module Login {
  import opened Common
  import opened Roles
  import opened Routes
  import opened Store
  import opened UpsertTokens
  import opened Boundary
  import opened Schemas

  const ContinueWithGoogle: string := "Please choose 'Continue with Google' to log in."
  const VerifyInbox: string := "Verify your email. Please check your inbox for a verification link."
  const InvalidPassword: string := "Invalid password"
  const InvalidOtp: string := "Invalid OTP"
  const CodeExpired: string := "Code has expired!"
  const CheckOtpMail: string := "Please check your email for the OTP."
  const SignedInMessage: string := "Successfully signed in!"

  /** Replace the user's two-factor confirmation, if any, by a new one with a fresh id. */
  function Reconfirm(cs: seq<Confirmation>, userId: string): seq<Confirmation> {
    var kept := match FindConfirmation(cs, userId)
      case Some(c) => DeleteConfirmation(cs, c.id)
      case None => cs;
    kept + [Confirmation(NextConfirmationId(cs), userId)]
  }

  /** The outcome of checking a submitted code. */
  datatype OtpCheck = OtpRejected(message: string) | OtpAccepted(db: Db)

  /** Look the code up by email, compare it, check its expiry, then delete it and record a
      fresh confirmation for the user. */
  function CheckOtp(db: Db, user: User, otp: string, now: int): OtpCheck {
    match FindByEmail(db.otps, user.email)
    case None => OtpRejected(InvalidOtp)
    case Some(row) =>
      if row.value != otp then OtpRejected(InvalidOtp)
      else if row.expires < now then OtpRejected(CodeExpired)
      else OtpAccepted(db.(otps := DeleteById(db.otps, row.id),
                           confirmations := Reconfirm(db.confirmations, user.id)))
  }

  /** The `signIn` call the action makes for `user`. */
  function CredentialsRequest(email: string, password: string, env: Env, user: User): SignInRequest
    requires Truthy(env.serverSecret) && Truthy(env.credentialProviderSecret)
  {
    CredentialsSignIn(email, Some(password), env.serverSecret.value, env.credentialProviderSecret.value,
                      user, DefaultLoginRedirect(user.role))
  }

  /** The whole action. `userRole` is the role the request names; `now` the clock reading. */
  function LoginAction(form: LogInForm, userRole: Option<string>, db: Db, env: Env, now: int, o: Oracles): Step {
    var parsed := ParseLogIn(form, o.isEmail);
    if parsed.None? then Step(Error(ValidationFailed), db, [], None)
    else if ParseOptionalRole(userRole).None? then Step(Error(InvalidUserRole), db, [], None)
    else
      var email, password, otp := parsed.value.email, parsed.value.password, parsed.value.otp;
      if email !in db.users then Step(Error(UserNotFound), db, [], None)
      else
        var user := db.users[email];
        if !Truthy(user.password) then Step(Error(ContinueWithGoogle), db, [], None)
        else if user.emailVerified.None? then
          var issued := UpsertVerificationToken(db, user.email, o.uuid, now);
          Step(Success(VerifyInbox), issued.0, [VerificationMail(issued.1.email, issued.1.value, user.name)], None)
        else if !Truthy(env.credentialProviderSecret) then Step(Error(PasswordlessSecretMissing), db, [], None)
        else if !Truthy(env.serverSecret) then Step(Error(ServerSecretMissing), db, [], None)
        else if !Compare(o, password, user.password.value) then Step(Error(InvalidPassword), db, [], None)
        else
          var request := CredentialsRequest(email, password, env, user);
          if user.isTwoFactorEnabled && user.email != "" then
            if Truthy(otp) then
              match CheckOtp(db, user, otp.value, now)
              case OtpRejected(m) => Step(Error(m), db, [], None)
              case OtpAccepted(db1) => Step(AfterSignIn(o.signIn, SignedInMessage), db1, [], Some(request))
            else
              var issued := UpsertTwoFactorOtp(db, user.email, o.otpDraw, now);
              Step(TwoFactor(CheckOtpMail), issued.0, [TwoFactorMail(user.email, issued.1.value)], None)
          else Step(AfterSignIn(o.signIn, SignedInMessage), db, [], Some(request))
  }

  /** An action that changed nothing: same database, no mail, no `signIn`. */
  predicate Inert(s: Step, db: Db) {
    s.db == db && s.outbox == [] && s.signIn.None?
  }

  /** The stored user a valid request names, when there is one. */
  predicate Found(form: LogInForm, userRole: Option<string>, db: Db, o: Oracles) {
    ParseLogIn(form, o.isEmail).Some? && ParseOptionalRole(userRole).Some? &&
    ParseLogIn(form, o.isEmail).value.email in db.users
  }

  function FoundUser(form: LogInForm, userRole: Option<string>, db: Db, o: Oracles): User
    requires Found(form, userRole, db, o)
  {
    db.users[ParseLogIn(form, o.isEmail).value.email]
  }

  /** The request got past the password check. */
  predicate PassesPassword(form: LogInForm, userRole: Option<string>, db: Db, env: Env, o: Oracles) {
    Found(form, userRole, db, o) &&
    var user := FoundUser(form, userRole, db, o);
    Truthy(user.password) && user.emailVerified.Some? &&
    Truthy(env.credentialProviderSecret) && Truthy(env.serverSecret) &&
    Compare(o, ParseLogIn(form, o.isEmail).value.password, user.password.value)
  }

  /** Schema failures, then roles outside the enum, are rejected before the database is read:
      the answer is the same for every database, and nothing changes. */
  lemma LoginRejectsBeforeLookup(form: LogInForm, userRole: Option<string>, db: Db, db2: Db, env: Env, now: int, o: Oracles)
    requires ParseLogIn(form, o.isEmail).None? || ParseOptionalRole(userRole).None?
    ensures Inert(LoginAction(form, userRole, db, env, now, o), db)
    ensures LoginAction(form, userRole, db, env, now, o).response == LoginAction(form, userRole, db2, env, now, o).response
    ensures LoginAction(form, userRole, db, env, now, o).response ==
      Error(if ParseLogIn(form, o.isEmail).None? then ValidationFailed else InvalidUserRole)
  {
  }

  /** An unknown email, and an account without a password, are answered without any change. */
  lemma LoginUnknownOrPasswordless(form: LogInForm, userRole: Option<string>, db: Db, env: Env, now: int, o: Oracles)
    requires ParseLogIn(form, o.isEmail).Some? && ParseOptionalRole(userRole).Some?
    requires !Found(form, userRole, db, o) || !Truthy(FoundUser(form, userRole, db, o).password)
    ensures Inert(LoginAction(form, userRole, db, env, now, o), db)
    ensures LoginAction(form, userRole, db, env, now, o).response ==
      Error(if !Found(form, userRole, db, o) then UserNotFound else ContinueWithGoogle)
  {
  }

  /** An unverified account gets a fresh verification token (the only one for its email) and one
      mail carrying it, before the secrets or the password are looked at: the answer is the same
      for every environment and every password. */
  lemma LoginUnverified(form: LogInForm, userRole: Option<string>, db: Db, env: Env, env2: Env, password2: FieldValue, now: int, o: Oracles)
    requires Found(form, userRole, db, o) && UniqueRows(db.verificationTokens)
    requires Truthy(FoundUser(form, userRole, db, o).password) && FoundUser(form, userRole, db, o).emailVerified.None?
    requires MinLen(password2, 6)
    ensures var s := LoginAction(form, userRole, db, env, now, o);
      var user := FoundUser(form, userRole, db, o);
      s.response == Success(VerifyInbox) && s.signIn.None? &&
      s.db == db.(verificationTokens := s.db.verificationTokens) &&
      EmailCount(s.db.verificationTokens, user.email) == 1 &&
      FindByEmail(s.db.verificationTokens, user.email).Some? &&
      s.outbox == [VerificationMail(user.email, o.uuid, user.name)] &&
      FindByEmail(s.db.verificationTokens, user.email).value.value == o.uuid
    ensures LoginAction(form, userRole, db, env, now, o) ==
      LoginAction(form.(password := password2), userRole, db, env2, now, o)
  {
    var user := FoundUser(form, userRole, db, o);
    UpsertResult(db.verificationTokens, user.email, o.uuid, now);
  }

  /** The same for a log-in naming the account by its email, with no code: a sole fresh token,
      one mail, nothing else changed, and the password and environment are never looked at. */
  lemma LoginUnverifiedAccount(email: string, password: string, password2: string, userRole: Option<string>,
                                db: Db, env: Env, env2: Env, now: int, o: Oracles)
    requires email in db.users && o.isEmail(email) && 6 <= |password| && 6 <= |password2|
    requires ParseOptionalRole(userRole).Some?
    requires Truthy(db.users[email].password) && db.users[email].emailVerified.None?
    requires UniqueRows(db.verificationTokens) && db.users[email].email == email
    ensures var s := LoginAction(LogInForm(Str(email), Str(password), Absent), userRole, db, env, now, o);
      s.response == Success(VerifyInbox) && s.signIn.None? &&
      s.db == db.(verificationTokens := s.db.verificationTokens) &&
      EmailCount(s.db.verificationTokens, email) == 1 &&
      FindByEmail(s.db.verificationTokens, email).Some? &&
      FindByEmail(s.db.verificationTokens, email).value.value == o.uuid &&
      s.outbox == [VerificationMail(email, o.uuid, db.users[email].name)]
    ensures LoginAction(LogInForm(Str(email), Str(password), Absent), userRole, db, env, now, o) ==
      LoginAction(LogInForm(Str(email), Str(password2), Absent), userRole, db, env2, now, o)
  {
    var form := LogInForm(Str(email), Str(password), Absent);
    assert ParseLogIn(form, o.isEmail) == Some(LogIn(email, password, None));
    LoginUnverified(form, userRole, db, env, env2, Str(password2), now, o);
  }

  /** A missing secret is reported before the password is compared, and nothing changes. */
  lemma LoginMissingSecret(form: LogInForm, userRole: Option<string>, db: Db, env: Env, now: int, o: Oracles)
    requires Found(form, userRole, db, o)
    requires Truthy(FoundUser(form, userRole, db, o).password) && FoundUser(form, userRole, db, o).emailVerified.Some?
    requires !Truthy(env.credentialProviderSecret) || !Truthy(env.serverSecret)
    ensures Inert(LoginAction(form, userRole, db, env, now, o), db)
    ensures LoginAction(form, userRole, db, env, now, o).response ==
      Error(if !Truthy(env.credentialProviderSecret) then PasswordlessSecretMissing else ServerSecretMissing)
  {
  }

  /** A wrong password changes nothing: no code, no confirmation, no mail. */
  lemma LoginWrongPassword(form: LogInForm, userRole: Option<string>, db: Db, env: Env, now: int, o: Oracles)
    requires Found(form, userRole, db, o)
    requires var user := FoundUser(form, userRole, db, o);
      Truthy(user.password) && user.emailVerified.Some? &&
      Truthy(env.credentialProviderSecret) && Truthy(env.serverSecret) &&
      !Compare(o, ParseLogIn(form, o.isEmail).value.password, user.password.value)
    ensures Inert(LoginAction(form, userRole, db, env, now, o), db)
    ensures LoginAction(form, userRole, db, env, now, o).response == Error(InvalidPassword)
  {
  }

  /** With two-factor on and no code supplied, the user's code is replaced by a new six-digit one
      (the only one for the email), one mail carries it, and `signIn` is not reached. */
  lemma LoginIssuesOtp(form: LogInForm, userRole: Option<string>, db: Db, env: Env, now: int, o: Oracles)
    requires PassesPassword(form, userRole, db, env, o) && UniqueRows(db.otps)
    requires FoundUser(form, userRole, db, o).isTwoFactorEnabled && FoundUser(form, userRole, db, o).email != ""
    requires !Truthy(ParseLogIn(form, o.isEmail).value.otp)
    ensures var s := LoginAction(form, userRole, db, env, now, o);
      var email := FoundUser(form, userRole, db, o).email;
      s.response == TwoFactor(CheckOtpMail) && s.signIn.None? &&
      s.db == db.(otps := s.db.otps) &&
      EmailCount(s.db.otps, email) == 1 &&
      FindByEmail(s.db.otps, email).Some? &&
      FindByEmail(s.db.otps, email).value.value == OtpString(o.otpDraw) &&
      |OtpString(o.otpDraw)| == 6 &&
      s.outbox == [TwoFactorMail(email, OtpString(o.otpDraw))]
  {
    var user := FoundUser(form, userRole, db, o);
    UpsertResult(db.otps, user.email, OtpString(o.otpDraw), now);
  }

  /** A submitted code is checked for presence, then equality, then expiry: a wrong code is
      "Invalid OTP" even when the stored one has expired, and a code expiring exactly now passes. */
  lemma OtpCheckOrder(db: Db, user: User, otp: string, now: int)
    ensures FindByEmail(db.otps, user.email).None? ==> CheckOtp(db, user, otp, now) == OtpRejected(InvalidOtp)
    ensures FindByEmail(db.otps, user.email).Some? && FindByEmail(db.otps, user.email).value.value != otp ==>
      CheckOtp(db, user, otp, now) == OtpRejected(InvalidOtp)
    ensures FindByEmail(db.otps, user.email).Some? && FindByEmail(db.otps, user.email).value.value == otp ==>
      (CheckOtp(db, user, otp, now).OtpRejected? <==> FindByEmail(db.otps, user.email).value.expires < now)
    ensures CheckOtp(db, user, otp, now).OtpRejected? ==> CheckOtp(db, user, otp, now).message in {InvalidOtp, CodeExpired}
  {
  }

  /** Replacing the confirmation leaves the user exactly one, newly created (its id is new to the
      list, so any earlier one is gone), and others' confirmations alone. */
  lemma ReconfirmResult(cs: seq<Confirmation>, userId: string)
    requires UniqueConfirmations(cs)
    ensures UniqueConfirmations(Reconfirm(cs, userId))
    ensures ConfirmationCount(Reconfirm(cs, userId), userId) == 1
    ensures forall c :: c in Reconfirm(cs, userId) && c.userId == userId ==> forall d :: d in cs ==> d.id != c.id
    ensures forall c :: c in cs && c.userId == userId ==> c !in Reconfirm(cs, userId)
    ensures forall c :: c in cs && c.userId != userId ==> c in Reconfirm(cs, userId)
  {
    var kept := match FindConfirmation(cs, userId) case Some(c) => DeleteConfirmation(cs, c.id) case None => cs;
    var added := Confirmation(NextConfirmationId(cs), userId);
    assert Reconfirm(cs, userId) == kept + [added];
    KeptHasNoConfirmation(cs, userId);
    KeptIsUnique(cs, userId);
    AppendNewConfirmation(cs, kept, added);
    ConfirmationCountAppend(kept, added, userId);
    ConfirmationCountAbsent(kept, userId);
    KeptOthers(cs, userId);
  }

  /** Appending a confirmation with an id beyond `cs` and a user absent from `kept`, a unique
      sub-list of `cs`, keeps it unique. */
  lemma AppendNewConfirmation(cs: seq<Confirmation>, kept: seq<Confirmation>, added: Confirmation)
    requires UniqueConfirmations(kept)
    requires forall c :: c in kept ==> c in cs
    requires forall c :: c in cs ==> c.id < added.id
    requires forall c :: c in kept ==> c.userId != added.userId
    ensures UniqueConfirmations(kept + [added])
  {
    var r := kept + [added];
    forall i, j | 0 <= i < j < |r| ensures r[i].id != r[j].id && r[i].userId != r[j].userId {
      if j == |kept| {
        assert r[i] == kept[i] && kept[i] in kept;
      } else {
        assert r[i] == kept[i] && r[j] == kept[j];
      }
    }
  }

  /** Removing the user's confirmation keeps every other user's. */
  lemma KeptOthers(cs: seq<Confirmation>, userId: string)
    requires UniqueConfirmations(cs)
    ensures var kept := match FindConfirmation(cs, userId) case Some(c) => DeleteConfirmation(cs, c.id) case None => cs;
      forall c :: c in cs && c.userId != userId ==> c in kept
  {
    match FindConfirmation(cs, userId)
    case Some(prior) =>
      forall c | c in cs && c.userId != userId ensures c in DeleteConfirmation(cs, prior.id) {
        ConfirmationsShareOnlyWithSelf(cs, c, prior);
      }
    case None =>
  }

  /** After removing the user's (unique) confirmation no confirmation of theirs remains. */
  lemma KeptHasNoConfirmation(cs: seq<Confirmation>, userId: string)
    requires UniqueConfirmations(cs)
    ensures var kept := match FindConfirmation(cs, userId) case Some(c) => DeleteConfirmation(cs, c.id) case None => cs;
      forall c :: c in kept ==> c.userId != userId
  {
    match FindConfirmation(cs, userId)
    case Some(prior) =>
      forall c | c in DeleteConfirmation(cs, prior.id) ensures c.userId != userId {
        if c.userId == userId { ConfirmationsShareOnlyWithSelf(cs, c, prior); }
      }
    case None =>
  }

  /** Two confirmations of a unique list that share an id or a user are the same. */
  lemma ConfirmationsShareOnlyWithSelf(cs: seq<Confirmation>, a: Confirmation, b: Confirmation)
    requires UniqueConfirmations(cs) && a in cs && b in cs
    ensures (a.id == b.id || a.userId == b.userId) ==> a == b
  {
    var i :| 0 <= i < |cs| && cs[i] == a;
    var j :| 0 <= j < |cs| && cs[j] == b;
  }

  lemma {:induction false} DeleteConfirmationUnique(cs: seq<Confirmation>, id: nat)
    requires UniqueConfirmations(cs)
    ensures UniqueConfirmations(DeleteConfirmation(cs, id))
  {
    if |cs| > 0 {
      var rest := DeleteConfirmation(cs[1..], id);
      DeleteConfirmationUnique(cs[1..], id);
      if cs[0].id != id {
        var r := [cs[0]] + rest;
        forall j | 0 < j < |r| ensures r[0].id != r[j].id && r[0].userId != r[j].userId {
          assert r[j] in rest;
          var m :| 0 <= m < |cs[1..]| && cs[1..][m] == r[j];
          assert cs[m + 1] == r[j];
        }
      }
    }
  }

  lemma KeptIsUnique(cs: seq<Confirmation>, userId: string)
    requires UniqueConfirmations(cs)
    ensures var kept := match FindConfirmation(cs, userId) case Some(c) => DeleteConfirmation(cs, c.id) case None => cs;
      UniqueConfirmations(kept)
  {
    match FindConfirmation(cs, userId)
    case Some(c) => DeleteConfirmationUnique(cs, c.id);
    case None =>
  }

  lemma {:induction false} ConfirmationCountAppend(cs: seq<Confirmation>, c: Confirmation, userId: string)
    ensures ConfirmationCount(cs + [c], userId) == ConfirmationCount(cs, userId) + (if c.userId == userId then 1 else 0)
  {
    if |cs| == 0 {
      assert cs + [c] == [c];
    } else {
      assert (cs + [c])[1..] == cs[1..] + [c];
      ConfirmationCountAppend(cs[1..], c, userId);
    }
  }

  lemma {:induction false} ConfirmationCountAbsent(cs: seq<Confirmation>, userId: string)
    requires forall c :: c in cs ==> c.userId != userId
    ensures ConfirmationCount(cs, userId) == 0
  {
    if |cs| > 0 {
      assert cs[0] in cs;
      assert forall c :: c in cs[1..] ==> c in cs;
      ConfirmationCountAbsent(cs[1..], userId);
    }
  }

  /** A correct, unexpired code is consumed (exactly its row is deleted, so no code remains for
      the email), the user's confirmation is replaced by a new one, the other tables are untouched,
      and `signIn` is called with the stored user's dashboard. */
  lemma LoginWithOtp(form: LogInForm, userRole: Option<string>, db: Db, env: Env, now: int, o: Oracles)
    requires PassesPassword(form, userRole, db, env, o)
    requires UniqueRows(db.otps) && UniqueConfirmations(db.confirmations)
    requires var user := FoundUser(form, userRole, db, o);
      user.isTwoFactorEnabled && user.email != "" && Truthy(ParseLogIn(form, o.isEmail).value.otp) &&
      FindByEmail(db.otps, user.email).Some? &&
      FindByEmail(db.otps, user.email).value.value == ParseLogIn(form, o.isEmail).value.otp.value &&
      now <= FindByEmail(db.otps, user.email).value.expires
    ensures var s := LoginAction(form, userRole, db, env, now, o);
      var user := FoundUser(form, userRole, db, o);
      FindByEmail(s.db.otps, user.email).None? &&
      ConfirmationCount(s.db.confirmations, user.id) == 1 &&
      UniqueConfirmations(s.db.confirmations) &&
      s.db.confirmations == Reconfirm(db.confirmations, user.id) &&
      (forall x :: x in s.db.otps <==> x in db.otps && x.id != FindByEmail(db.otps, user.email).value.id) &&
      s.db.users == db.users && s.db.verificationTokens == db.verificationTokens &&
      s.db.resetTokens == db.resetTokens && s.outbox == [] &&
      s.signIn == Some(CredentialsRequest(ParseLogIn(form, o.isEmail).value.email,
                                          ParseLogIn(form, o.isEmail).value.password, env, user)) &&
      s.response == AfterSignIn(o.signIn, SignedInMessage)
  {
    var user := FoundUser(form, userRole, db, o);
    var row := FindByEmail(db.otps, user.email).value;
    var rest := DeleteById(db.otps, row.id);
    forall x | x in rest ensures x.email != user.email {
      if x.email == user.email { UniqueMembers(db.otps, x, row); }
    }
    assert forall i :: 0 <= i < |rest| ==> rest[i] in rest;
    ReconfirmResult(db.confirmations, user.id);
  }

  /** The dashboard `signIn` is sent to is the stored user's, whatever role the request named. */
  lemma LoginRedirectUsesStoredRole(form: LogInForm, r1: Option<string>, r2: Option<string>, db: Db, env: Env, now: int, o: Oracles)
    requires ParseOptionalRole(r1).Some? && ParseOptionalRole(r2).Some?
    ensures LoginAction(form, r1, db, env, now, o) == LoginAction(form, r2, db, env, now, o)
    ensures LoginAction(form, r1, db, env, now, o).signIn.Some? ==>
      LoginAction(form, r1, db, env, now, o).signIn.value.redirectTo ==
        DefaultLoginRedirect(FoundUser(form, r1, db, o).role)
  {
  }

  /** Without two-factor, a correct password goes straight to `signIn`, and nothing is stored. */
  lemma LoginWithoutTwoFactor(form: LogInForm, userRole: Option<string>, db: Db, env: Env, now: int, o: Oracles)
    requires PassesPassword(form, userRole, db, env, o)
    requires !FoundUser(form, userRole, db, o).isTwoFactorEnabled
    ensures var s := LoginAction(form, userRole, db, env, now, o);
      s.db == db && s.outbox == [] && s.signIn.Some? &&
      s.response == AfterSignIn(o.signIn, SignedInMessage) &&
      (s.response.Success? <==> o.signIn.SignedIn?)
  {
  }
}
