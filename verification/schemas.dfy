/** The request schemas as parsers from raw form fields to typed values. A field check of
    `z.string()` fails on a missing or non-string value; `.email()` is the `isEmail` oracle. */
module Schemas {
  import opened Common
  import opened Roles

  /** A string field whose length lies in `lo..hi` (`.min(lo).max(hi)`). */
  predicate LenBetween(f: FieldValue, lo: nat, hi: nat) {
    f.Str? && lo <= |f.s| <= hi
  }

  /** A string field of at least `lo` characters (`.min(lo)`). */
  predicate MinLen(f: FieldValue, lo: nat) {
    f.Str? && lo <= |f.s|
  }

  /** `z.string().email()` */
  predicate EmailField(f: FieldValue, isEmail: string -> bool) {
    f.Str? && isEmail(f.s)
  }

  // ---------------------------------------------------------------- SignUpSchema

  datatype SignUpForm = SignUpForm(name: FieldValue, email: FieldValue, password: FieldValue, userRole: FieldValue)
  datatype SignUp = SignUp(name: string, email: string, password: string, userRole: string)

  function ParseSignUp(f: SignUpForm, isEmail: string -> bool): Option<SignUp> {
    if LenBetween(f.name, 2, 50) && EmailField(f.email, isEmail) && LenBetween(f.password, 6, 50) && f.userRole.Str?
    then Some(SignUp(f.name.s, f.email.s, f.password.s, f.userRole.s))
    else None
  }

  /** Sign-up accepts exactly names of 2 to 50 characters, passwords of 6 to 50, a valid email
      and any string as role, and passes the values through unchanged. */
  lemma SignUpAccepts(f: SignUpForm, isEmail: string -> bool)
    ensures ParseSignUp(f, isEmail).Some? <==>
      f.name.Str? && 2 <= |f.name.s| <= 50 && f.email.Str? && isEmail(f.email.s) &&
      f.password.Str? && 6 <= |f.password.s| <= 50 && f.userRole.Str?
    ensures ParseSignUp(f, isEmail).Some? ==>
      ParseSignUp(f, isEmail).value == SignUp(f.name.s, f.email.s, f.password.s, f.userRole.s)
  {
  }

  /** The role field is only required to be a string: changing its text never changes the verdict. */
  lemma SignUpIgnoresRoleText(f: SignUpForm, isEmail: string -> bool, role: string)
    requires f.userRole.Str?
    ensures ParseSignUp(f, isEmail).Some? == ParseSignUp(f.(userRole := Str(role)), isEmail).Some?
  {
  }

  // ---------------------------------------------------------------- LogInSchema

  datatype LogInForm = LogInForm(email: FieldValue, password: FieldValue, otp: FieldValue)
  datatype LogIn = LogIn(email: string, password: string, otp: Option<string>)

  /** `z.optional(z.string())`: missing is fine, a string is kept, anything else fails. */
  function OptionalString(f: FieldValue): Option<Option<string>> {
    match f
    case Absent => Some(None)
    case Str(s) => Some(Some(s))
    case NonString => None
  }

  function ParseLogIn(f: LogInForm, isEmail: string -> bool): Option<LogIn> {
    var otp := OptionalString(f.otp);
    if EmailField(f.email, isEmail) && MinLen(f.password, 6) && otp.Some?
    then Some(LogIn(f.email.s, f.password.s, otp.value))
    else None
  }

  /** Log-in needs a valid email and a password of at least six characters, with no upper bound;
      the code is optional but must be a string when present. */
  lemma LogInAccepts(f: LogInForm, isEmail: string -> bool)
    ensures ParseLogIn(f, isEmail).Some? <==>
      f.email.Str? && isEmail(f.email.s) && f.password.Str? && 6 <= |f.password.s| && !f.otp.NonString?
    ensures ParseLogIn(f, isEmail).Some? ==>
      ParseLogIn(f, isEmail).value.otp == (if f.otp.Str? then Some(f.otp.s) else None)
  {
  }

  /** No password is too long for log-in. */
  lemma LogInNoMaximum(email: string, password: string, isEmail: string -> bool)
    requires isEmail(email) && 6 <= |password|
    ensures ParseLogIn(LogInForm(Str(email), Str(password), Absent), isEmail) == Some(LogIn(email, password, None))
  {
  }

  // ---------------------------------------------------------------- NewVerificationLoginSchema

  datatype NewVerificationLoginForm = NewVerificationLoginForm(
    email: FieldValue, newVerificationSecret: FieldValue, serverSecret: FieldValue)
  datatype NewVerificationLogin = NewVerificationLogin(email: string, newVerificationSecret: string, serverSecret: string)

  function ParseNewVerificationLogin(f: NewVerificationLoginForm, isEmail: string -> bool): Option<NewVerificationLogin> {
    if EmailField(f.email, isEmail) && MinLen(f.newVerificationSecret, 25) && MinLen(f.serverSecret, 25)
    then Some(NewVerificationLogin(f.email.s, f.newVerificationSecret.s, f.serverSecret.s))
    else None
  }

  /** Both secrets of the passwordless schema have at least 25 characters. */
  lemma NewVerificationSecretsLong(f: NewVerificationLoginForm, isEmail: string -> bool)
    ensures ParseNewVerificationLogin(f, isEmail).Some? <==>
      EmailField(f.email, isEmail) && f.newVerificationSecret.Str? && 25 <= |f.newVerificationSecret.s| &&
      f.serverSecret.Str? && 25 <= |f.serverSecret.s|
  {
  }

  // ---------------------------------------------------------------- LogInServerSchema

  datatype LogInServerForm = LogInServerForm(email: FieldValue, password: FieldValue, otp: FieldValue, serverSecret: FieldValue)
  datatype LogInServer = LogInServer(base: LogIn, serverSecret: string)

  /** The extended schema, field by field: the log-in fields and the server secret. */
  function ParseLogInServer(f: LogInServerForm, isEmail: string -> bool): Option<LogInServer> {
    var otp := OptionalString(f.otp);
    if EmailField(f.email, isEmail) && MinLen(f.password, 6) && otp.Some? && MinLen(f.serverSecret, 25)
    then Some(LogInServer(LogIn(f.email.s, f.password.s, otp.value), f.serverSecret.s))
    else None
  }

  /** `LogInSchema.extend(...)` only adds a constraint: the server schema accepts a value exactly
      when the log-in schema accepts its base fields and the server secret has 25 characters. */
  lemma LogInServerExtendsLogIn(f: LogInServerForm, isEmail: string -> bool)
    ensures ParseLogInServer(f, isEmail).Some? <==>
      ParseLogIn(LogInForm(f.email, f.password, f.otp), isEmail).Some? && f.serverSecret.Str? && 25 <= |f.serverSecret.s|
    ensures ParseLogInServer(f, isEmail).Some? ==>
      ParseLogInServer(f, isEmail).value.base == ParseLogIn(LogInForm(f.email, f.password, f.otp), isEmail).value
  {
  }

  // ---------------------------------------------------------------- OAuthActionSchema

  datatype OAuthForm = OAuthForm(provider: FieldValue, userRole: FieldValue)
  datatype OAuthRequest = OAuthRequest(provider: string, userRole: string)

  function ParseOAuth(f: OAuthForm): Option<OAuthRequest> {
    if f.provider.Str? && f.userRole.Str? then Some(OAuthRequest(f.provider.s, f.userRole.s)) else None
  }

  /** The OAuth schema accepts any two strings. */
  lemma OAuthAcceptsAnyStrings(provider: string, userRole: string)
    ensures ParseOAuth(OAuthForm(Str(provider), Str(userRole))) == Some(OAuthRequest(provider, userRole))
    ensures ParseOAuth(OAuthForm(Absent, Str(userRole))).None?
  {
  }

  // ---------------------------------------------------------------- ResetSchema

  datatype ResetForm = ResetForm(email: FieldValue)

  function ParseReset(f: ResetForm, isEmail: string -> bool): Option<string> {
    if EmailField(f.email, isEmail) then Some(f.email.s) else None
  }

  /** The reset schema constrains only the email. */
  lemma ResetOnlyEmail(f: ResetForm, isEmail: string -> bool)
    ensures ParseReset(f, isEmail).Some? <==> f.email.Str? && isEmail(f.email.s)
    ensures ParseReset(f, isEmail).Some? ==> ParseReset(f, isEmail).value == f.email.s
  {
  }

  // ---------------------------------------------------------------- NewPasswordSchema

  datatype NewPasswordForm = NewPasswordForm(password: FieldValue, confirmPassword: FieldValue)
  datatype NewPassword = NewPassword(password: string, confirmPassword: string)

  function ParseNewPassword(f: NewPasswordForm): Option<NewPassword> {
    if MinLen(f.password, 6) && MinLen(f.confirmPassword, 6) && f.password.s == f.confirmPassword.s
    then Some(NewPassword(f.password.s, f.confirmPassword.s))
    else None
  }

  /** Whatever the new-password schema accepts has two equal passwords of at least six
      characters, and every such pair is accepted. */
  lemma NewPasswordMatches(f: NewPasswordForm)
    ensures ParseNewPassword(f).Some? ==>
      ParseNewPassword(f).value.password == ParseNewPassword(f).value.confirmPassword &&
      6 <= |ParseNewPassword(f).value.password|
    ensures (f.password.Str? && f.confirmPassword.Str? && f.password.s == f.confirmPassword.s &&
             6 <= |f.password.s|) ==> ParseNewPassword(f).Some?
  {
  }

  // ---------------------------------------------------------------- how the schemas relate

  /** Whatever passes sign-up passes log-in with the same email and password: sign-up's bounds
      are at least as strict as log-in's. */
  lemma SignUpCanLogIn(f: SignUpForm, isEmail: string -> bool)
    ensures ParseSignUp(f, isEmail).Some? ==>
      ParseLogIn(LogInForm(f.email, f.password, Absent), isEmail) ==
        Some(LogIn(ParseSignUp(f, isEmail).value.email, ParseSignUp(f, isEmail).value.password, None))
  {
  }

  /** Log-in has no upper bound on the password while sign-up stops at 50 characters: a longer
      password can log in but could never have been chosen at sign-up. */
  lemma LongPasswordLogInOnly(name: FieldValue, email: string, password: string, role: FieldValue, isEmail: string -> bool)
    requires isEmail(email) && 50 < |password|
    ensures ParseLogIn(LogInForm(Str(email), Str(password), Absent), isEmail) == Some(LogIn(email, password, None))
    ensures ParseSignUp(SignUpForm(name, Str(email), Str(password), role), isEmail).None?
  {
  }

  /** A password the new-password schema accepts passes the log-in schema with any valid email. */
  lemma ResetPasswordCanLogIn(f: NewPasswordForm, email: string, isEmail: string -> bool)
    requires isEmail(email)
    ensures ParseNewPassword(f).Some? ==>
      ParseNewPassword(f).value.password == ParseNewPassword(f).value.confirmPassword &&
      ParseLogIn(LogInForm(Str(email), Str(ParseNewPassword(f).value.password), Absent), isEmail) ==
        Some(LogIn(email, ParseNewPassword(f).value.password, None))
  {
  }

  /** The reset schema accepts exactly the emails the log-in schema accepts, whatever valid
      password goes with them. */
  lemma ResetAcceptsLogInEmails(f: ResetForm, password: string, isEmail: string -> bool)
    requires 6 <= |password|
    ensures ParseReset(f, isEmail).Some? <==> ParseLogIn(LogInForm(f.email, Str(password), Absent), isEmail).Some?
    ensures ParseReset(f, isEmail).Some? ==>
      ParseReset(f, isEmail).value == ParseLogIn(LogInForm(f.email, Str(password), Absent), isEmail).value.email
  {
  }

  /** The form a parsed log-in came from, up to the representation of a missing code. */
  function LogInFormOf(v: LogIn): LogInForm {
    LogInForm(Str(v.email), Str(v.password), match v.otp case None => Absent case Some(c) => Str(c))
  }

  /** Parsing keeps everything: a parsed log-in, written back as a form, parses to itself; and
      dropping the code from an accepted form keeps it accepted. */
  lemma LogInRoundTrip(f: LogInForm, isEmail: string -> bool)
    ensures ParseLogIn(f, isEmail).Some? ==>
      ParseLogIn(LogInFormOf(ParseLogIn(f, isEmail).value), isEmail) == ParseLogIn(f, isEmail)
    ensures ParseLogIn(f, isEmail).Some? ==> ParseLogIn(f.(otp := Absent), isEmail).Some?
  {
  }

  /** A passwordless request's server secret also satisfies the server log-in schema: both
      schemas ask the same 25 characters of it. */
  lemma PasswordlessSecretFitsServerSchema(f: NewVerificationLoginForm, password: string, isEmail: string -> bool)
    requires 6 <= |password|
    ensures ParseNewVerificationLogin(f, isEmail).Some? ==>
      ParseLogInServer(LogInServerForm(f.email, Str(password), Absent, f.serverSecret), isEmail).Some? &&
      ParseLogInServer(LogInServerForm(f.email, Str(password), Absent, f.serverSecret), isEmail).value.serverSecret ==
        ParseNewVerificationLogin(f, isEmail).value.serverSecret
  {
  }

  /** The OAuth schema never looks at the role's text, so a role no enum value matches (the
      empty string, say) passes it: the role check is left to the action. */
  lemma OAuthSchemaLeavesRoleToAction(provider: string, r1: string, r2: string)
    ensures ParseOAuth(OAuthForm(Str(provider), Str(r1))).Some? == ParseOAuth(OAuthForm(Str(provider), Str(r2))).Some?
    ensures ParseOAuth(OAuthForm(Str(provider), Str(""))).Some? && ParseRole("").None?
  {
  }
}
