/** What the auth actions exchange with the world around them: the environment, the mailer
    (an append-only outbox), the `signIn` call of the session library, and the result object
    each action returns. Foreign primitives are oracles passed in by the caller. */
module Boundary {
  import opened Common
  import opened Store
  import opened UpsertTokens

  /** The environment variables the actions read. */
  datatype Env = Env(
    credentialProviderSecret: Option<string>,
    serverSecret: Option<string>,
    nodeEnv: Option<string>)

  /** One email handed to the mailer. */
  datatype Mail =
    | VerificationMail(to: string, token: string, name: Option<string>)
    | TwoFactorMail(to: string, otp: string)
    | PasswordResetMail(to: string, token: string, name: Option<string>)

  /** The arguments of one `signIn` call: the credentials provider with the user record and
      both secrets, or an OAuth provider. */
  datatype SignInRequest =
    | CredentialsSignIn(
        email: string, password: Option<string>, serverSecret: string,
        credentialProviderSecret: string, user: User, redirectTo: string)
    | ProviderSignIn(provider: string, redirectTo: string)

  /** How a `signIn` call ends: it returns, or it throws. */
  datatype SignInOutcome = SignedIn | Throws(thrown: Thrown)

  /** The object an action returns, or the value it lets escape. */
  datatype Response =
    | Error(message: string)
    | Success(message: string)
    | TwoFactor(message: string)
    | SuccessRedirect(message: string, redirect: string)
    | NoResult
    | Rethrown(thrown: Thrown)

  /** One action: its response, the database afterwards, the mail sent and the `signIn` call made. */
  datatype Step = Step(response: Response, db: Db, outbox: seq<Mail>, signIn: Option<SignInRequest>)

  /** The foreign primitives: the `zod` email check, bcrypt's hash, a UUID, an OTP draw and the
      outcome the session library's `signIn` will have. */
  datatype Oracles = Oracles(
    isEmail: string -> bool,
    hash: string -> string,
    uuid: string,
    otpDraw: OtpDraw,
    signIn: SignInOutcome)

  /** `bcrypt.compare(plain, stored)`: true exactly for the hash of `plain`. */
  predicate Compare(o: Oracles, plain: string, stored: string) {
    o.hash(plain) == stored
  }

  const ValidationFailed: string := "Validation failed. Please check your input."
  const InvalidUserRole: string := "Invalid user role"
  const PasswordlessSecretMissing: string := "Passwordless secret is missing."
  const ServerSecretMissing: string := "Server secret is missing."
  const UserNotFound: string := "User not found"
  const NoUserForToken: string := "No user is associated with this verification token."

  /** The `catch` around `signIn`: a rejected-credentials `AuthError`, any other `AuthError`,
      and anything else, which is rethrown. */
  function SignInFailure(t: Thrown): (r: Response)
    ensures r.Error? <==> t.AuthError?
    ensures t.AuthError? ==> (r.message == "Invalid credentials!" <==> t.errorType == "CredentialsSignin")
    ensures r.Error? ==> r.message in {"Invalid credentials!", "Something went wrong!"}
    ensures !t.AuthError? ==> r == Rethrown(t)
  {
    match t
    case AuthError(errorType, _) =>
      if errorType == "CredentialsSignin" then Error("Invalid credentials!") else Error("Something went wrong!")
    case _ => Rethrown(t)
  }

  /** The response once `signIn` has been called: `success` when it returns. */
  function AfterSignIn(outcome: SignInOutcome, successMessage: string): Response {
    match outcome
    case SignedIn => Success(successMessage)
    case Throws(t) => SignInFailure(t)
  }

  /** Only a returning `signIn` gives a success; a throw never does. */
  lemma AfterSignInSucceedsOnlyWhenSignedIn(outcome: SignInOutcome, successMessage: string)
    ensures AfterSignIn(outcome, successMessage).Success? <==> outcome.SignedIn?
    ensures outcome.Throws? && !outcome.thrown.AuthError? ==>
      AfterSignIn(outcome, successMessage) == Rethrown(outcome.thrown)
  {
  }
}
