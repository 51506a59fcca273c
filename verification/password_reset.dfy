/** `resetAction` and `newPasswordAction`: request a password-reset token by mail, then redeem
    it for a new password. */
module PasswordReset {
  import opened Common
  import opened Text
  import opened Roles
  import opened Helpers
  import opened Store
  import opened UpsertTokens
  import opened Boundary
  import opened Schemas

  const ResetMailSent: string := "Check your email for a password reset link."
  const TokenNotFound: string := "Token not found"
  const InvalidToken: string := "Invalid token"
  const TokenExpired: string := "Token has expired"
  const PasswordsDiffer: string := "Passwords do not match. Please type the same password twice."
  const PasswordUpdated: string := "Your password has been successfully updated. Use the button below to proceed to the login page."

  /** `name?.split(" ")[0]` */
  function FirstName(name: Option<string>): Option<string> {
    match name
    case Some(n) => Some(BeforeFirst(n, ' '))
    case None => None
  }

  /** `resetAction`: a reset token for an existing account with a non-empty email, and its mail. */
  function ResetAction(form: ResetForm, db: Db, now: int, o: Oracles): Step {
    var parsed := ParseReset(form, o.isEmail);
    if parsed.None? then Step(Error(ValidationFailed), db, [], None)
    else
      var email := parsed.value;
      if email !in db.users || db.users[email].email == "" then Step(Error(UserNotFound), db, [], None)
      else
        var issued := UpsertPasswordResetToken(db, email, o.uuid, now);
        Step(Success(ResetMailSent), issued.0,
             [PasswordResetMail(email, issued.1.value, FirstName(db.users[email].name))], None)
  }

  /** A reset request succeeds exactly for a valid email with an account; then the email has
      exactly one reset token, the new one, only the reset tokens change, and one mail carries it. */
  lemma ResetIssuesToken(form: ResetForm, db: Db, now: int, o: Oracles)
    requires UniqueRows(db.resetTokens) && UsersKeyed(db.users)
    ensures var s := ResetAction(form, db, now, o);
      s.response.Success? <==>
        (ParseReset(form, o.isEmail).Some? && ParseReset(form, o.isEmail).value in db.users &&
         ParseReset(form, o.isEmail).value != "")
    ensures var s := ResetAction(form, db, now, o);
      s.response.Error? ==> s.db == db && s.outbox == []
    ensures var s := ResetAction(form, db, now, o);
      s.response.Success? ==>
        var email := ParseReset(form, o.isEmail).value;
        s.db == db.(resetTokens := s.db.resetTokens) &&
        EmailCount(s.db.resetTokens, email) == 1 &&
        FindByEmail(s.db.resetTokens, email).Some? &&
        FindByEmail(s.db.resetTokens, email).value.value == o.uuid &&
        s.outbox == [PasswordResetMail(email, o.uuid, FirstName(db.users[email].name))] &&
        s.signIn.None?
  {
    if ParseReset(form, o.isEmail).Some? {
      UpsertResult(db.resetTokens, ParseReset(form, o.isEmail).value, o.uuid, now);
    }
  }

  /** The login page of a role: `/login/` and the role in lower case. */
  function LoginPage(role: UserRole): string {
    "/login/" + UserRoleToLowerCaseString(RoleName(role))
  }

  /** `newPasswordAction(values, token)` */
  function NewPasswordAction(form: NewPasswordForm, token: Option<string>, db: Db, now: int, o: Oracles): Step {
    if !Truthy(token) then Step(Error(TokenNotFound), db, [], None)
    else
      var parsed := ParseNewPassword(form);
      if parsed.None? then Step(Error(ValidationFailed), db, [], None)
      else
        var v := parsed.value;
        match FindByValue(db.resetTokens, token.value)
        case None => Step(Error(InvalidToken), db, [], None)
        case Some(row) =>
          if row.expires < now then Step(Error(TokenExpired), db, [], None)
          else if v.password != v.confirmPassword then Step(Error(PasswordsDiffer), db, [], None)
          else if row.email !in db.users then Step(Error(UserNotFound), db, [], None)
          else
            var user := db.users[row.email];
            var db1 := db.(users := db.users[row.email := user.(password := Some(o.hash(v.password)))],
                           resetTokens := DeleteById(db.resetTokens, row.id));
            Step(SuccessRedirect(PasswordUpdated, LoginPage(user.role)), db1, [], None)
  }

  /** The action's own mismatch check can never fire: the schema has already demanded equal
      passwords. */
  lemma NewPasswordMismatchUnreachable(form: NewPasswordForm, token: Option<string>, db: Db, now: int, o: Oracles)
    ensures NewPasswordAction(form, token, db, now, o).response != Error(PasswordsDiffer)
  {
    NewPasswordMatches(form);
  }

  /** Every refusal changes nothing; the checks run in the order token present, schema, token
      known, token unexpired (a token expiring exactly now is still good), account exists. */
  lemma NewPasswordRejections(form: NewPasswordForm, token: Option<string>, db: Db, now: int, o: Oracles)
    ensures var s := NewPasswordAction(form, token, db, now, o);
      s.response.Error? ==> s.db == db && s.outbox == [] && s.signIn.None?
    ensures var s := NewPasswordAction(form, token, db, now, o);
      (!Truthy(token) ==> s.response == Error(TokenNotFound)) &&
      (Truthy(token) && ParseNewPassword(form).None? ==> s.response == Error(ValidationFailed)) &&
      (Truthy(token) && ParseNewPassword(form).Some? && FindByValue(db.resetTokens, token.value).None? ==>
        s.response == Error(InvalidToken)) &&
      ((Truthy(token) && ParseNewPassword(form).Some? && FindByValue(db.resetTokens, token.value).Some? &&
        FindByValue(db.resetTokens, token.value).value.expires < now) ==> s.response == Error(TokenExpired))
  {
  }

  /** A good token sets the account's password to one that the new password matches, deletes
      exactly the consumed token row (its email has none left), touches no other account or
      table, and sends the user to the login page of the stored role: that URL names the role
      back. */
  lemma NewPasswordUpdates(form: NewPasswordForm, token: Option<string>, db: Db, now: int, o: Oracles)
    requires UniqueRows(db.resetTokens)
    requires Truthy(token) && ParseNewPassword(form).Some?
    requires var found := FindByValue(db.resetTokens, token.value);
      found.Some? && now <= found.value.expires && found.value.email in db.users
    ensures var s := NewPasswordAction(form, token, db, now, o);
      var email := FindByValue(db.resetTokens, token.value).value.email;
      var role := db.users[email].role;
      email in s.db.users &&
      Compare(o, form.password.s, s.db.users[email].password.value) &&
      s.db.users[email] == db.users[email].(password := s.db.users[email].password) &&
      (forall e :: e in db.users && e != email ==> e in s.db.users && s.db.users[e] == db.users[e]) &&
      FindByEmail(s.db.resetTokens, email).None? &&
      (forall x :: x in s.db.resetTokens <==>
        x in db.resetTokens && x.id != FindByValue(db.resetTokens, token.value).value.id) &&
      s.db.verificationTokens == db.verificationTokens && s.db.otps == db.otps &&
      s.db.confirmations == db.confirmations &&
      s.response == SuccessRedirect(PasswordUpdated, LoginPage(role)) &&
      ParseRole(UrlToUserRole(LoginPage(role))) == Some(role) &&
      s.outbox == [] && s.signIn.None?
  {
    var row := FindByValue(db.resetTokens, token.value).value;
    var rest := DeleteById(db.resetTokens, row.id);
    forall x | x in rest ensures x.email != row.email {
      if x.email == row.email { UniqueMembers(db.resetTokens, x, row); }
    }
    assert forall i :: 0 <= i < |rest| ==> rest[i] in rest;
    NewPasswordMatches(form);
    RoleFromLoginUrl(db.users[row.email].role);
  }

  /** A reset token works once: when it is the only row holding its value, a successful
      redemption removes it, and presenting it again is refused as invalid without any change. */
  lemma NewPasswordTokenSingleUse(form: NewPasswordForm, token: Option<string>, db: Db, now: int, later: int, o: Oracles)
    requires Truthy(token) && ParseNewPassword(form).Some?
    requires var found := FindByValue(db.resetTokens, token.value);
      found.Some? && now <= found.value.expires && found.value.email in db.users &&
      forall x :: x in db.resetTokens && x.value == token.value ==> x == found.value
    ensures var s := NewPasswordAction(form, token, db, now, o);
      var again := NewPasswordAction(form, token, s.db, later, o);
      s.response.SuccessRedirect? && again.response == Error(InvalidToken) && again.db == s.db
  {
    var row := FindByValue(db.resetTokens, token.value).value;
    DeletedValueGone(db.resetTokens, row, token.value);
  }
}
