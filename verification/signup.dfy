/** `signupAction`: schema and role checks, then, inside one `try`, the duplicate check, the
    account creation, the verification token and its mail. Failures of the database or the
    mailer are a parameter: the stage that throws, and what it throws. */
module Signup {
  import opened Common
  import opened Text
  import opened Roles
  import opened Helpers
  import opened Store
  import opened UpsertTokens
  import opened Boundary
  import opened Schemas

  const AccountExists: string := "Please try again or log in if you already have an account."
  const SignupFailed: string := "Unable to process your request. Please try again."
  const CheckInbox: string := "Please check your email to verify your account."

  /** Which awaited call inside the `try` throws, if any. */
  datatype Fault = NoFault | CreateFails(thrown: Thrown) | UpsertFails(thrown: Thrown) | MailFails(thrown: Thrown)

  /** The account `prisma.user.create` stores: not yet verified, no two-factor, no image. */
  function NewUser(id: string, v: SignUp, role: UserRole, o: Oracles): User {
    User(id, Some(v.name), v.email, Some(o.hash(v.password)), role, None, false, None)
  }

  /** The `catch` of the action: the thrown message, or the generic one. */
  function Caught(t: Thrown): Response {
    Error(ExtractErrorMessage(t, SignupFailed))
  }

  /** The whole action; `newUserId` is the id the database assigns. */
  function SignupAction(form: SignUpForm, db: Db, now: int, o: Oracles, newUserId: string, fault: Fault): Step {
    var parsed := ParseSignUp(form, o.isEmail);
    if parsed.None? then Step(Error(ValidationFailed), db, [], None)
    else
      var v := parsed.value;
      var firstName := BeforeFirst(v.name, ' ');
      var role := ParseRole(v.userRole);
      if role.None? then Step(Error(InvalidUserRole), db, [], None)
      else if v.email in db.users then Step(Error(AccountExists), db, [], None)
      else if fault.CreateFails? then Step(Caught(fault.thrown), db, [], None)
      else
        var db1 := db.(users := db.users[v.email := NewUser(newUserId, v, role.value, o)]);
        if fault.UpsertFails? then Step(Caught(UpsertFailure(fault.thrown, VerificationTokenFailure)), db1, [], None)
        else
          var issued := UpsertVerificationToken(db1, v.email, o.uuid, now);
          if fault.MailFails? then Step(Caught(fault.thrown), issued.0, [], None)
          else Step(Success(CheckInbox), issued.0, [VerificationMail(v.email, issued.1.value, Some(firstName))], None)
  }

  /** A successful sign-up stores one new, unverified account holding the password's hash and
      the requested role, gives its email exactly one verification token, mails that token with
      the first word of the name, and signs nobody in. Existing accounts are untouched. */
  lemma SignupCreatesUnverifiedAccount(form: SignUpForm, db: Db, now: int, o: Oracles, newUserId: string)
    requires UniqueRows(db.verificationTokens) && UsersKeyed(db.users)
    requires SignupAction(form, db, now, o, newUserId, NoFault).response.Success?
    ensures var s := SignupAction(form, db, now, o, newUserId, NoFault);
      var v := ParseSignUp(form, o.isEmail).value;
      v.email !in db.users &&
      s.db.users == db.users[v.email := s.db.users[v.email]] &&
      UsersKeyed(s.db.users) &&
      s.db.users[v.email].emailVerified.None? &&
      Compare(o, v.password, s.db.users[v.email].password.value) &&
      Some(s.db.users[v.email].role) == ParseRole(v.userRole) &&
      s.db.resetTokens == db.resetTokens && s.db.otps == db.otps && s.db.confirmations == db.confirmations &&
      EmailCount(s.db.verificationTokens, v.email) == 1 &&
      FindByEmail(s.db.verificationTokens, v.email).Some? &&
      FindByEmail(s.db.verificationTokens, v.email).value.value == o.uuid &&
      s.outbox == [VerificationMail(v.email, o.uuid, Some(BeforeFirst(v.name, ' ')))] &&
      s.signIn.None?
  {
    var v := ParseSignUp(form, o.isEmail).value;
    var user := NewUser(newUserId, v, ParseRole(v.userRole).value, o);
    var db1 := db.(users := db.users[v.email := user]);
    var issued := UpsertVerificationToken(db1, v.email, o.uuid, now);
    var s := SignupAction(form, db, now, o, newUserId, NoFault);
    assert s == Step(Success(CheckInbox), issued.0, [VerificationMail(v.email, issued.1.value, Some(BeforeFirst(v.name, ' ')))], None);
    assert s.db.users == db1.users && s.db.users[v.email] == user;
    UpsertResult(db.verificationTokens, v.email, o.uuid, now);
  }

  /** The name in the mail is the name up to its first space: a prefix without spaces. */
  lemma SignupGreetsFirstName(form: SignUpForm, db: Db, now: int, o: Oracles, newUserId: string)
    requires SignupAction(form, db, now, o, newUserId, NoFault).response.Success?
    ensures var s := SignupAction(form, db, now, o, newUserId, NoFault);
      var name := ParseSignUp(form, o.isEmail).value.name;
      |s.outbox| == 1 && s.outbox[0].name.Some? &&
      s.outbox[0].name.value <= name && ' ' !in s.outbox[0].name.value &&
      (' ' !in name ==> s.outbox[0].name.value == name)
  {
  }

  /** An email that already has an account is refused whatever the database would have done
      next, and nothing changes. */
  lemma SignupRejectsExisting(form: SignUpForm, db: Db, now: int, o: Oracles, newUserId: string, fault: Fault)
    requires ParseSignUp(form, o.isEmail).Some? && ParseRole(ParseSignUp(form, o.isEmail).value.userRole).Some?
    requires ParseSignUp(form, o.isEmail).value.email in db.users
    ensures var s := SignupAction(form, db, now, o, newUserId, fault);
      s.response == Error(AccountExists) && s.db == db && s.outbox == [] && s.signIn.None?
  {
  }

  /** A schema failure is reported before the role, and a bad role before the database: both
      change nothing and do not depend on the database. */
  lemma SignupRejectsBeforeLookup(form: SignUpForm, db: Db, db2: Db, now: int, o: Oracles, newUserId: string, fault: Fault)
    requires ParseSignUp(form, o.isEmail).None? || ParseRole(ParseSignUp(form, o.isEmail).value.userRole).None?
    ensures var s := SignupAction(form, db, now, o, newUserId, fault);
      s.db == db && s.outbox == [] && s.signIn.None? &&
      s.response == Error(if ParseSignUp(form, o.isEmail).None? then ValidationFailed else InvalidUserRole) &&
      s.response == SignupAction(form, db2, now, o, newUserId, fault).response
  {
  }

  /** Each failing stage is reported as an error carrying the thrown `Error`'s message (or the
      stage's own default); a failed creation changes nothing, a failed token upsert leaves the
      account without a token, a failed mail leaves both. */
  lemma SignupFaults(form: SignUpForm, db: Db, now: int, o: Oracles, newUserId: string, t: Thrown)
    requires ParseSignUp(form, o.isEmail).Some? && ParseRole(ParseSignUp(form, o.isEmail).value.userRole).Some?
    requires ParseSignUp(form, o.isEmail).value.email !in db.users
    ensures var email := ParseSignUp(form, o.isEmail).value.email;
      var c := SignupAction(form, db, now, o, newUserId, CreateFails(t));
      var u := SignupAction(form, db, now, o, newUserId, UpsertFails(t));
      var m := SignupAction(form, db, now, o, newUserId, MailFails(t));
      var ok := SignupAction(form, db, now, o, newUserId, NoFault);
      c.db == db && c.response == Error(if IsErrorInstance(t) then t.message else SignupFailed) &&
      u.db.users == ok.db.users && u.db.verificationTokens == db.verificationTokens && email in u.db.users &&
      u.response == Error(if IsErrorInstance(t) then t.message else VerificationTokenFailure) &&
      m.db == ok.db && m.response == c.response &&
      c.outbox == [] && u.outbox == [] && m.outbox == []
  {
  }

  /** After a sign-up whose token upsert failed, signing up again with the same form is refused:
      the half-created account blocks it. */
  lemma SignupRetryBlockedAfterUpsertFault(form: SignUpForm, db: Db, now: int, later: int, o: Oracles, newUserId: string, id2: string, t: Thrown, fault: Fault)
    requires ParseSignUp(form, o.isEmail).Some? && ParseRole(ParseSignUp(form, o.isEmail).value.userRole).Some?
    requires ParseSignUp(form, o.isEmail).value.email !in db.users
    ensures var first := SignupAction(form, db, now, o, newUserId, UpsertFails(t));
      first.response.Error? &&
      SignupAction(form, first.db, later, o, id2, fault).response == Error(AccountExists)
  {
  }

  /** A successful sign-up keeps the verification tokens unique. */
  lemma SignupTokensUnique(form: SignUpForm, db: Db, now: int, o: Oracles, newUserId: string)
    requires UniqueRows(db.verificationTokens)
    requires SignupAction(form, db, now, o, newUserId, NoFault).response.Success?
    ensures UniqueRows(SignupAction(form, db, now, o, newUserId, NoFault).db.verificationTokens)
  {
    var v := ParseSignUp(form, o.isEmail).value;
    var u := Upsert(db.verificationTokens, v.email, o.uuid, now);
    assert SignupAction(form, db, now, o, newUserId, NoFault).db.verificationTokens == u.table;
    UpsertResult(db.verificationTokens, v.email, o.uuid, now);
  }
}
