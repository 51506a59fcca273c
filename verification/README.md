# Xvariate authentication core in Dafny

This project models the authentication core of the Xvariate web application and proves properties about it:

- the route guard (Next.js middleware) and its route tables;
- the request schemas;
- the URL and role helpers;
- the token store:
  - create-or-update ("upsert") of verification tokens, password-reset tokens and two-factor codes;
  - the older delete-then-create generators;
- the server actions, each as a pure step function:
  - log-in with two-factor escalation;
  - sign-up;
  - email verification and resending a verification token;
  - password-reset request and completion;
  - the OAuth role hand-off;
- the credentials provider's `authorize` gate.

Each action is a pure function of the request, the database, the environment, the clock reading `now` and a bundle of oracles. It returns a `Step` holding four things:

- the response object;
- the database afterwards;
- the mails handed to the mailer (an outbox);
- the `signIn` call it made, if any.

The foreign primitives are parameters:

- the e-mail check of `zod`;
- bcrypt's hash (`Compare(p, stored)` holds exactly when `stored` is the hash of `p`);
- the UUID;
- the `crypto.randomInt` draw;
- the outcome of `signIn`.

**The database.** Users live in a map keyed by email. Each token kind lives in a table of rows (`id`, `email`, `value`, `expires`):

- a lookup by email or by value returns the first matching row;
- "one row per email" (`UniqueRows`) is an invariant the operations are proved to keep;
- `View` reads a table as the map from email to row that a lookup sees, and the upsert properties are stated against that map.

**Layout.** One module per source file, in files:

| file | contents |
|---|---|
| `common.dfy` | shared datatypes |
| `text.dfy` | strings |
| `roles.dfy` | the role enum |
| `routes.dfy` | route tables |
| `middleware.dfy` | the guard |
| `helpers.dfy` | helpers |
| `schemas.dfy` | request schemas |
| `store.dfy` | records and table operations |
| `upsert_tokens.dfy` | upserts |
| `token_generators.dfy` | delete-then-create generators |
| `boundary.dfy` | environment, mail, `signIn`, responses |
| `login.dfy`, `signup.dfy`, `new_verification.dfy`, `resend_verification.dfy`, `password_reset.dfy`, `oauth.dfy`, `auth_config.dfy` | the actions and `authorize` |
| `scenarios.dfy` | properties of sequences of actions |

## Model

| member | source | states |
|---|---|---|
| Middleware.NormalizePathname | src/middleware.ts:25-31 | the result is the input, or the input minus exactly one trailing `/`; it differs from the input exactly when the input is not `"/"` and ends in `/` |
| Middleware.NormalizeNotIdempotent | src/middleware.ts:25-31 | normalising `"a//"` twice differs from normalising it once, so the function is not idempotent |
| Middleware.MatchesAnyMeans | src/middleware.ts:49-50 | `routes.some(r => p.startsWith(r))` holds exactly when some route is a prefix of `p` |
| Middleware.MatchesAnyAppend | src/routes.ts:32 | matching a concatenation of route lists is matching either list |
| Middleware.FirstLoginRouteMeans | src/middleware.ts:71-79 | the dashboard loop yields the default `/login/client` when no dashboard prefixes the path, else the log-in route of the first dashboard that does |
| Middleware.GuardCaseInsensitive | src/middleware.ts:39-40 | the decision for a path equals the decision for its lower-cased form |
| Middleware.GuardIgnoresRole | src/middleware.ts:41 | the decision does not depend on the session's role |
| Middleware.GuardAllowsApiAndHome | src/middleware.ts:45-46 | a path under `/api/auth`, or the home page, is allowed whatever the login state |
| Middleware.GuardAuthRoute | src/middleware.ts:58-64 | on an auth route a logged-in user is redirected to `/xvariate` and a logged-out one is allowed, before the public rule is consulted |
| Middleware.GuardLoggedInElsewhere | src/middleware.ts:86-100 | a logged-in user off the auth routes is always allowed: no role is enforced |
| Middleware.EverySlashPathIsPublic | src/routes.ts:6 | every path starting with `/` matches the public routes, because `"/"` is one of them |
| Middleware.GuardPathKeepsLeadingSlash | src/middleware.ts:39-40 | lower-casing and normalising keep a leading `/` |
| Middleware.GuardNeverSendsSlashPathsToLogin | src/middleware.ts:49 | a slash-prefixed request is never sent to a log-in page: logged out it is allowed, logged in it is allowed or sent to `/xvariate` |
| Middleware.NoDashboardMatchWithoutSlash | src/middleware.ts:18-23 | a path without a leading slash matches no dashboard, so it gets the default log-in page |
| Middleware.GuardUnauthenticatedRedirect | src/middleware.ts:68-83 | whenever the unauthenticated redirect fires, it targets `/login/client` |
| Middleware.IntendedMatchIsNarrower | src/middleware.ts:49 | matching `"/"` exactly and other routes by prefix accepts a subset of what prefix matching accepts |
| Middleware.ClientDashboardOpenAsWritten | src/middleware.ts:49 | as written, a visitor without a session reaches `/client` |
| Middleware.LoginFreelancerIsAuthRoute | src/routes.ts:15-21 | `/login/freelancer` starts with the static route `/login` and is not under `/api/auth` |
| Middleware.AuthRedirectIgnoresRoleAsWritten | src/middleware.ts:60 | as written, a logged-in freelancer on `/login/freelancer` is redirected to `/xvariate` |
| Middleware.NoMatchBySecondChar | src/middleware.ts:50 | a path whose second character differs from that of every route matches none of them |
| Middleware.RoleRoutesSecondChar | src/routes.ts:24-29 | every generated route shares its second character with its prefix |
| Middleware.OutsideAuthRoutes | src/routes.ts:15-32 | a path missed by the static auth routes, whose second character is neither `s` nor `l`, is missed by all auth routes |
| Middleware.DashboardIsNotAuthRoute | src/routes.ts:15-48 | no auth route is a prefix of any role's dashboard path |
| Middleware.DiffersEarlyNoMatch | src/middleware.ts:49-50 | a path that differs early from every non-root route matches none of them under intended matching, nor under prefix matching when `"/"` is absent |
| Middleware.FirstLoginRouteAt | src/middleware.ts:74-79 | when entry k prefixes the path and earlier dashboards differ in the second character, the loop stops at entry k |
| Middleware.DashboardUnmatched | src/routes.ts:5-21 | each dashboard path differs early from every static auth route and every public route |
| Middleware.LoginTableShape | src/middleware.ts:18-23 | each dashboard's log-in route is `/login` followed by the dashboard path |
| Middleware.DashboardLoginRoute | src/middleware.ts:18-23 | the dashboard loop sends each role's dashboard to that role's log-in page |
| Middleware.GuardIntendedSendsToLogin | src/middleware.ts:68-83 | corrected guard: a visitor without a session, off the API, the home page, the auth routes and the exact-root public routes, is redirected by the dashboard loop |
| Middleware.DashboardGuardPath | src/middleware.ts:39-46 | a dashboard path is unchanged by lower-casing and normalising, and is neither home nor under `/api/auth` |
| Middleware.DashboardsNeedLogin | src/middleware.ts:66-83 | corrected guard: a visitor without a session on a role's dashboard is sent to `/login` + that dashboard |
| Middleware.AuthRouteSendsSessionHome | src/middleware.ts:56-61 | corrected guard: a session on an auth route is sent to its own role's dashboard |
| Middleware.IntendedDiffersOnlyThere | src/middleware.ts:35-101 | both guards agree on every request except a logged-out request that only `"/"` makes public and a logged-in request to an auth route |
| Middleware.GuardsDifferExactly | src/middleware.ts:35-101 | the guards differ exactly on a logged-out request, off the API, home and auth routes, that only `"/"` makes public, and on a logged-in request to an auth route from a session that is not Xvariate |
| Middleware.SessionDashboardIsXvariate | src/middleware.ts:56-61 | a session's own dashboard is `/xvariate` exactly for a Xvariate session |
| Routes.RoleRoutes | src/routes.ts:24-29 | one route per role, in enum order, each the prefix followed by the lower-cased role |
| Routes.LowerRoleName | src/routes.ts:24-29 | the lower-cased enum strings are `xvariate`, `ambassador`, `client`, `freelancer` |
| Routes.DefaultLoginRedirect | src/routes.ts:38-48 | each role's dashboard is `/` followed by the lower-cased role name |
| Routes.DefaultLoginRedirectInjective | src/routes.ts:38-48 | distinct roles land on distinct dashboards |
| Routes.AuthRoutesShape | src/routes.ts:15-32 | the auth routes are the five static routes followed by two per role, 5 + 2·4 in all |
| Routes.RoleAuthRoutesListed | src/routes.ts:24-32 | both `/signup/` + role and `/login/` + role are auth routes, for every role |
| Routes.GeneratedAuthRoutesExtendStatic | src/routes.ts:24-32 | every generated auth route extends `/login` or `/signup` |
| Routes.HomeIsPublic | src/routes.ts:4-6 | the home route is `"/"` and is one of the public routes |
| Roles.RoleValues | src/actions/auth-actions/signup-action.ts:24 | one value string per role, in declaration order, each the role's own name |
| Roles.RoleValuesListed | src/actions/auth-actions/signup-action.ts:24 | each role's name is among the enum values |
| Roles.ParseRole | src/actions/auth-actions/login-action.ts:25-27 | a string is accepted exactly when it is one of the enum values, and the role it gives has that string as its name |
| Roles.ParseOptionalRole | src/actions/auth-actions/login-action.ts:18-27 | a missing role is never an enum value; a present one is checked as above |
| Roles.ParseRoleName | src/actions/auth-actions/oauth-action.ts:25-27 | parsing a role's own name gives that role back |
| Roles.RoleNameInjective | src/routes.ts:24-29 | distinct roles have distinct names |
| Text.LowerIdempotent | src/middleware.ts:39 | lower-casing twice is lower-casing once |
| Text.LowerKeepsSlashPrefix | src/middleware.ts:39 | lower-casing keeps a leading `/` |
| Text.UpperLowerInverse | src/lib/helpers.ts:20-29 | upper-casing the lower-cased form restores a string with no lower-case letter |
| Text.StartsWithMeans | src/middleware.ts:49-50 | the character test is the prefix relation |
| Text.AfterLast | src/lib/helpers.ts:21 | `split("/").pop()` is a separator-free suffix, preceded by the separator whenever it is shorter than the input |
| Text.BeforeFirst | src/actions/auth-actions/signup-action.ts:22 | `split(" ")[0]` is a space-free prefix, followed by a space whenever it is shorter than the input |
| Text.Decimal | src/lib/upsert-tokens.ts:72 | `toString` yields decimal digits only |
| Text.DecimalRoundTrip | src/lib/upsert-tokens.ts:72 | reading back a number's decimal text gives the number |
| Text.DecimalLength | src/lib/upsert-tokens.ts:72 | a number between 10^(k-1) and 10^k prints as exactly k characters |
| Helpers.ExtractErrorMessage | src/lib/helpers.ts:7-16 | the message of an `Error` instance, else the default |
| Helpers.UrlToUserRole | src/lib/helpers.ts:20-24 | the upper-cased text after the last `/`; it contains no `/` |
| Helpers.UserRoleToLowerCaseString | src/lib/helpers.ts:27-29 | same length, each letter lowered, every other character unchanged |
| Helpers.ExpiryInMinutes | src/lib/helpers.ts:32-34 | the expiry lies exactly `minutes` whole minutes after `now`, so it is later than `now` exactly when the lifetime is positive |
| Helpers.ExpiryStrictlyIncreasing | src/lib/helpers.ts:32-34 | longer lifetimes expire strictly later |
| Helpers.AfterLastOfSuffix | src/lib/helpers.ts:21 | the last segment of a prefix plus `/` plus a slash-free segment is that segment |
| Helpers.AfterLastWithoutSeparator | src/lib/helpers.ts:21 | a slash-free string is its own last segment |
| Helpers.RoleUrlRoundTrip | src/lib/helpers.ts:20-29 | for every role, the URL segment of its lower-cased name, alone or after `/login/`, reads back as its name |
| Helpers.RoleFromLoginUrl | src/actions/auth-actions/new-password-action.ts:56-72 | the role read back from a role's log-in URL parses to that role |
| Schemas.SignUpCanLogIn | src/schemas/authSchemas.ts:4-29 | every sign-up the sign-up schema accepts also passes the log-in schema, with the same email and password |
| Schemas.SignUpIgnoresRoleText | src/schemas/authSchemas.ts:16 | the role's text never changes the verdict |
| Schemas.LogInRoundTrip | src/schemas/authSchemas.ts:21-29 | parsing a log-in loses nothing: the parsed value written back as a form parses to itself, and dropping the optional code keeps a form accepted |
| Schemas.LongPasswordLogInOnly | src/schemas/authSchemas.ts:12-27 | a password over 50 characters passes the log-in schema but fails the sign-up schema: log-in has no upper bound |
| Schemas.PasswordlessSecretFitsServerSchema | src/schemas/authSchemas.ts:33-45 | the server secret of an accepted passwordless request also satisfies the server log-in schema, which keeps it unchanged |
| Schemas.LogInServerExtendsLogIn | src/schemas/authSchemas.ts:42-45 | the server schema, defined field by field, accepts exactly when the log-in schema accepts the base fields and the secret has 25 characters, and its base value is the log-in value |
| Schemas.OAuthSchemaLeavesRoleToAction | src/schemas/authSchemas.ts:48-51 | the verdict does not depend on the role text, so a role no enum value matches (the empty string) passes the schema: only the action checks the role |
| Schemas.ResetAcceptsLogInEmails | src/schemas/authSchemas.ts:54-58 | the reset schema accepts exactly the emails the log-in schema accepts with any valid password, and yields the same email |
| Schemas.ResetPasswordCanLogIn | src/schemas/authSchemas.ts:61-76 | an accepted new password equals its confirmation and passes the log-in schema with any valid email |
| Store.IndexOf | src/data/verification-tokens.ts:4-8 | the position of the first row whose email (or token) column holds the key, or the length when no row does |
| Store.FindByEmail | src/data/verification-tokens.ts:4-8 | `findFirst` by email: a row of the table with that email, and none exactly when no row has it |
| Store.FindByValue | src/data/verification-tokens.ts:21-25 | lookup by token: a row holding the value, and none exactly when no row holds it |
| Store.DeleteById | src/actions/auth-actions/new-verification-action.ts:35-37 | the rows kept are exactly those with another id |
| Store.NextId | src/lib/token-generators.ts:23-29 | the id a create assigns exceeds every id already in the table |
| Store.ViewIsFind | src/lib/upsert-tokens.ts:45-56 | the email-to-row map and the lookup by email agree |
| Store.ViewOfUnique | src/lib/upsert-tokens.ts:46 | with one row per email, every row is what the map shows for its email and the map shows nothing else |
| Store.UniqueMembers | src/lib/upsert-tokens.ts:46 | rows of a unique table sharing an id or email are the same row |
| Store.DeletedValueGone | src/actions/auth-actions/new-password-action.ts:64-67 | deleting the only row that holds a value leaves no row holding it |
| Store.DeleteKeepsUnique | src/lib/token-generators.ts:15-21 | deleting keeps a table unique |
| Store.ViewAppendNew | src/lib/token-generators.ts:23-29 | appending a row for a new email adds one map entry |
| UpsertTokens.UpsertFailure | src/lib/upsert-tokens.ts:27-34 | a database failure is rethrown as a new `Error` carrying the original message, or the kind's default message |
| UpsertTokens.UpsertRowsShape | src/lib/upsert-tokens.ts:45-56 | rows keep id, email and place; other emails' rows are untouched; a row is appended exactly when none existed for the email |
| UpsertTokens.UpsertRowsView | src/lib/upsert-tokens.ts:45-56 | as a map from email to row, the upsert is a single map update at the email |
| UpsertTokens.UpsertRowsUnique | src/lib/upsert-tokens.ts:46 | one-row-per-email and distinct ids are preserved |
| UpsertTokens.UpsertRowsCount | src/lib/upsert-tokens.ts:45-56 | exactly one row for the email remains |
| UpsertTokens.Upsert | src/lib/upsert-tokens.ts:39-58 | the returned row has the email, the new value and expiry `now + 5 min`, keeps the old id when a row existed and gets a fresh id otherwise |
| UpsertTokens.UpsertResult | src/lib/upsert-tokens.ts:39-58 | after an upsert the table is unique, its map is the old map updated at the email, the lookup finds the returned row, and the email has exactly one row |
| UpsertTokens.UpsertedValueHolder | src/lib/upsert-tokens.ts:45-56 | a value new to the table is held only by rows for the upserted email |
| UpsertTokens.UpsertFreshValue | src/lib/upsert-tokens.ts:45-56 | a fresh token value is found by value at the returned row, and no other row holds it |
| UpsertTokens.UpsertTwice | src/lib/upsert-tokens.ts:39-58 | two upserts for one email leave one row, holding the later value and expiry |
| UpsertTokens.UpsertPasswordResetToken | src/lib/upsert-tokens.ts:7-35 | only the reset-token table changes, and the row returned has the email and the UUID |
| UpsertTokens.UpsertVerificationToken | src/lib/upsert-tokens.ts:39-67 | only the verification-token table changes, and the row returned has the email and the UUID |
| UpsertTokens.OtpString | src/lib/upsert-tokens.ts:72 | a draw in [100000, 999999] prints as six digits denoting the draw |
| UpsertTokens.UpsertTwoFactorOtp | src/lib/upsert-tokens.ts:71-99 | only the OTP table changes, and the row holds the six-digit code |
| TokenGenerators.ClearEmailRows | src/lib/token-generators.ts:13-20 | with one row per email, the find-then-delete removes exactly the email's row |
| TokenGenerators.Generate | src/lib/token-generators.ts:10-32 | the created row has the email, the value, expiry `now + 5 min` and an id new to the table |
| TokenGenerators.GenerateResult | src/lib/token-generators.ts:10-32 | given one row per email, the table stays unique, its map is the old map updated at the email, and the email has exactly one row |
| TokenGenerators.GenerateMatchesUpsert | src/lib/token-generators.ts:10-32 | generator and upsert produce rows with the same email, value and expiry and the same map elsewhere, differing only in the id when a row existed |
| TokenGenerators.GenerateVerificationToken | src/lib/token-generators.ts:10-32 | only the verification tokens change |
| TokenGenerators.GenerateTwoFactorOtp | src/lib/token-generators.ts:35-57 | only the OTP table changes, and the code has six digits |
| TokenGenerators.GeneratePasswordResetToken | src/lib/token-generators.ts:61-83 | only the reset tokens change |
| Boundary.SignInFailure | src/actions/auth-actions/login-action.ts:120-129 | `CredentialsSignin` gives "Invalid credentials!", any other `AuthError` gives "Something went wrong!", and anything else is rethrown |
| Boundary.AfterSignInSucceedsOnlyWhenSignedIn | src/actions/auth-actions/login-action.ts:101-130 | success exactly when `signIn` returns; a non-`AuthError` escapes |
| Login.LoginRejectsBeforeLookup | src/actions/auth-actions/login-action.ts:19-27 | schema failure, then an unknown role, are rejected the same for every database, with no change |
| Login.LoginUnknownOrPasswordless | src/actions/auth-actions/login-action.ts:31-39 | a missing user gives "User not found", a password-less one the Google hint, with no change |
| Login.LoginUnverified | src/actions/auth-actions/login-action.ts:41-45 | an unverified user gets a fresh, sole verification token and one mail carrying it, and the outcome is the same for every environment and password |
| Login.LoginUnverifiedAccount | src/actions/auth-actions/login-action.ts:41-45 | for a log-in naming an unverified account by email, with no code: a sole fresh token holding the uuid, one verification mail to the account, only the verification tokens change, and the answer is the same for every password of six or more characters and every environment |
| Login.LoginMissingSecret | src/actions/auth-actions/login-action.ts:47-56 | a missing provider secret, then a missing server secret, are reported before the password check, with no change |
| Login.LoginWrongPassword | src/actions/auth-actions/login-action.ts:58-61 | a wrong password gives "Invalid password" with no code, confirmation or mail |
| Login.LoginIssuesOtp | src/actions/auth-actions/login-action.ts:94-98 | with two-factor on and no code, the email gets exactly one six-digit code and one mail carrying it, `twoFactor` is returned, and `signIn` is not called |
| Login.OtpCheckOrder | src/actions/auth-actions/login-action.ts:68-74 | codes are checked for presence, then equality, then expiry: a wrong code is "Invalid OTP" even if expired, and a code expiring exactly now passes |
| Login.ReconfirmResult | src/actions/auth-actions/login-action.ts:82-93 | the user's prior confirmation is deleted and a new one, with an id new to the list, is created: the user ends with exactly one, the list stays unique and every other user keeps theirs |
| Login.AppendNewConfirmation | src/actions/auth-actions/login-action.ts:89-93 | appending a confirmation with a new id for a user absent from the list keeps it unique |
| Login.KeptOthers | src/actions/auth-actions/login-action.ts:82-87 | deleting the user's confirmation keeps everybody else's |
| Login.KeptHasNoConfirmation | src/actions/auth-actions/login-action.ts:82-87 | after the deletion the user has no confirmation |
| Login.LoginWithOtp | src/actions/auth-actions/login-action.ts:66-119 | a correct unexpired code is consumed (exactly its row is deleted), the confirmation is replaced by a new one, users, the other token tables and mail are untouched, and `signIn` gets the stored user |
| Login.LoginRedirectUsesStoredRole | src/actions/auth-actions/login-action.ts:64 | any two valid requested roles give the same step; the `signIn` target is the stored role's dashboard |
| Login.LoginWithoutTwoFactor | src/actions/auth-actions/login-action.ts:101-119 | without two-factor a correct password calls `signIn` and changes nothing; success exactly when `signIn` returns |
| Signup.SignupCreatesUnverifiedAccount | src/actions/auth-actions/signup-action.ts:45-56 | success adds one unverified account with the password's hash and the requested role, and gives its email exactly one verification token, mailed once |
| Signup.SignupGreetsFirstName | src/actions/auth-actions/signup-action.ts:22 | the greeting is the name's space-free prefix, the whole name when it has no space |
| Signup.SignupRejectsExisting | src/actions/auth-actions/signup-action.ts:29-33 | an existing email is refused with the generic message and no change, whatever faults would follow |
| Signup.SignupRejectsBeforeLookup | src/actions/auth-actions/signup-action.ts:14-26 | schema failure, then an unknown role, are rejected the same for every database, with no change |
| Signup.SignupFaults | src/actions/auth-actions/signup-action.ts:58-62 | each failing stage becomes an error with the thrown message or a default; the state left behind is that of the completed stages |
| Signup.SignupRetryBlockedAfterUpsertFault | src/actions/auth-actions/signup-action.ts:29-54 | after a failed token upsert the half-created account blocks a second sign-up |
| Signup.SignupTokensUnique | src/actions/auth-actions/signup-action.ts:54 | a successful sign-up keeps the verification tokens unique |
| NewVerification.NewVerificationRejections | src/actions/auth-actions/new-verification-action.ts:11-26 | the action refuses with no change exactly when the token is unknown, expired (`expires < now`) or has no account |
| NewVerification.NewVerificationCommitsBeforeSecrets | src/actions/auth-actions/new-verification-action.ts:29-48 | the account is verified at `now` and exactly the redeemed token row deleted before the secrets are checked; other accounts, confirmations, codes and reset tokens are untouched; the database afterwards is the same for every environment; a missing provider secret, then a missing server secret, is answered with its error and no `signIn` |
| NewVerification.NewVerificationSignsInStoredUser | src/actions/auth-actions/new-verification-action.ts:50-81 | with both secrets, `signIn` gets the account as read before the update, no password, and the role's dashboard, with no two-factor step; the response is success when it returns, "Invalid credentials!" on `CredentialsSignin`, "Something went wrong!" on another `AuthError`, and other errors escape |
| ResendVerification.ResendReplacesToken | src/actions/auth-actions/reset-vericationtoken-action.ts:9-26 | a known token, expired or not, is replaced by one sole new token for its email; the token is stored even when no account exists, and a mail goes out only when one does |
| ResendVerification.ResendUnknownTokenThrows | src/actions/auth-actions/reset-vericationtoken-action.ts:9-12 | an unknown token changes nothing and the upsert's failure escapes as an `Error` |
| PasswordReset.ResetIssuesToken | src/actions/auth-actions/reset-action.ts:9-34 | success exactly for a valid email with an account; then exactly one reset token (the new one) and one mail; errors change nothing |
| PasswordReset.NewPasswordMismatchUnreachable | src/actions/auth-actions/new-password-action.ts:41-43 | the action's own mismatch error can never be returned |
| PasswordReset.NewPasswordRejections | src/actions/auth-actions/new-password-action.ts:14-51 | every error changes nothing, and the checks run in the order token present, schema, token known, token unexpired |
| PasswordReset.NewPasswordUpdates | src/actions/auth-actions/new-password-action.ts:54-73 | a good token stores a password the new one matches, deletes exactly the redeemed token row, touches no other account, token table or confirmation, and redirects to the stored role's log-in page, which names the role back |
| PasswordReset.NewPasswordTokenSingleUse | src/actions/auth-actions/new-password-action.ts:27-30 | a redeemed reset token is refused as invalid the next time |
| OAuth.OAuthCookieCarriesRole | src/actions/auth-actions/oauth-action.ts:15-50 | the cookie is set exactly for an enum role and holds the requested role; it is HTTP-only and lives 300 s, and the redirect is that role's dashboard; a form failing the schema gets the validation error and an unknown role "Invalid user role", with no cookie |
| OAuth.OAuthCookieSecurity | src/actions/auth-actions/oauth-action.ts:33-44 | `secure` and `SameSite=None` exactly in production, `Lax` otherwise |
| OAuth.OAuthRethrowsEverything | src/actions/auth-actions/oauth-action.ts:47-54 | every provider throw escapes unchanged and the cookie stays set |
| AuthConfig.AuthorizeExactlyOnSecret | src/auth.config.ts:16-30 | a user is admitted exactly when the credentials validate, the environment secret is non-empty and the presented secret equals it; the user is returned unchanged |
| AuthConfig.AuthorizeEmptySecretRefusesAll | src/auth.config.ts:18-22 | an empty or missing environment secret admits nobody |
| Scenarios.OtpSingleUse | src/actions/auth-actions/login-action.ts:66-93 | a consumed two-factor code is refused as "Invalid OTP" on reuse, at any later time |
| Scenarios.VerificationTokenSingleUse | src/actions/auth-actions/new-verification-action.ts:11-37 | a redeemed verification token is refused as invalid on reuse |
| Scenarios.SignupThenLoginBeforeVerification | src/actions/auth-actions/login-action.ts:41-45 | right after sign-up, a log-in with any password is answered by replacing the verification token, never by the password check |
| Scenarios.ResetThenNewPassword | src/actions/auth-actions/new-password-action.ts:60-73 | a mailed reset token redeemed within five minutes sets the new password; redeeming it again is refused |
| Scenarios.LoginCredentialsAuthorized | src/auth.config.ts:24-28 | the credentials a log-in sends pass `authorize` under the same environment, which returns the user the action read |
| Scenarios.VerificationCredentialsAuthorized | src/auth.config.ts:24-28 | the same for the passwordless sign-in after verification |

## Left out

- Store.NextId: record ids are modelled as naturals and a create takes one more than the largest id in the table; the database's own id default is not part of this model, and the model relies only on the new id being fresh.

- Rendering, sessions and mail delivery are not modelled:
  - React pages and components, the e-mail templates, `src/auth.ts` and `src/lib/session.ts`;
  - mail delivery: a mail is a record in the outbox;
  - the database client and its caching.
- Foreign primitives are parameters, not implementations:
  - bcrypt is a deterministic hash, so its salt is not modelled;
  - the UUID, the OTP draw and `Date.now()`;
  - the outcome of `signIn`;
  - the `zod` e-mail check.
- String lengths count Dafny characters, not UTF-16 code units. Case conversion covers ASCII letters only.
- The role enum's declaration is not part of this model. Its values are assumed to be `XVARIATE`, `AMBASSADOR`, `CLIENT` and `FREELANCER`, in that order.
- The database schema is not part of this model. Two consequences:
  - a new account is assumed to start with two-factor off and no image;
  - the uniqueness of token values is not assumed; the single-use lemmas state it as a precondition instead.
- `CredentialProviderSchema` is not part of this model. `authorize` takes the schema's verdict as an `Option`.
- The two-factor confirmation lookup is not part of this model. It is taken as a first-match lookup by user id.
- Database and mailer failures are modelled only in sign-up, the one action that catches them. Elsewhere they propagate unchanged, and they are left out.
- One database failure is modelled outside sign-up: the resend action's upsert called without an email.
- The `signIn` call's `user` argument is the stored record. The JSON serialisation of the log-in action is not modelled.
- The OAuth cookie is set through an opaque store that is not modelled. The action's result records the cookie.
- Concurrent requests and the atomicity of the database calls are not modelled.
- The middleware's `config.matcher` (src/middleware.ts:104-110) is not modelled. It decides which requests reach the guard at all; the guard is modelled for every path.
- The `console.log` and `console.error` diagnostics are not modelled. They appear in src/middleware.ts (42, 52-54, 69-70), src/actions/auth-actions/login-action.ts:122 and src/actions/auth-actions/signup-action.ts (31, 37, 59). They have no effect on results.

## Findings

| source | as written | input that shows it | evidently intended | confidence | as-written member | corrected member |
|---|---|---|---|---|---|---|
| src/routes.ts:6 | `"/"` is a public route, and public routes are matched with `startsWith` (src/middleware.ts:49), so every path is public and the log-in redirect at lines 68-83 never fires | a visitor without a session requesting `/client` is let through | only the root is public under `"/"`; dashboards send visitors to their role's log-in page | not executed | Middleware.ClientDashboardOpenAsWritten | Middleware.DashboardsNeedLogin |
| src/middleware.ts:60 | a logged-in user on an auth route is sent to `DEFAULT_LOGIN_REDIRECT("XVARIATE")` | a logged-in freelancer opening `/login/freelancer` is sent to `/xvariate` | the comment on lines 56-57 says "their default dashboard", the session role's | not executed | Middleware.AuthRedirectIgnoresRoleAsWritten | Middleware.AuthRouteSendsSessionHome |
