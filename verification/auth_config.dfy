/** `authorize` of the credentials provider: the check that lets the actions' own `signIn`
    calls through. It is generic in the user record it hands back. */
module AuthConfig {
  import opened Common

  /** What the provider schema yields: the user record and the secret the caller presented. */
  datatype ProviderCredentials<U> = ProviderCredentials(user: U, credentialProviderSecret: string)

  /** `validated` is the schema's result (`None` when it fails); `secretFromEnv` is
      `CREDENTIAL_PROVIDER_SECRET`. */
  function Authorize<U>(validated: Option<ProviderCredentials<U>>, secretFromEnv: Option<string>): Option<U> {
    if validated.None? then None
    else if !Truthy(secretFromEnv) then None
    else if validated.value.credentialProviderSecret == secretFromEnv.value then Some(validated.value.user)
    else None
  }

  /** A user is admitted exactly when the credentials validate, the environment holds a non-empty
      secret, and the presented secret equals it; the admitted user is the one presented. */
  lemma AuthorizeExactlyOnSecret<U>(validated: Option<ProviderCredentials<U>>, secretFromEnv: Option<string>)
    ensures Authorize(validated, secretFromEnv).Some? <==>
      (validated.Some? && Truthy(secretFromEnv) && validated.value.credentialProviderSecret == secretFromEnv.value)
    ensures Authorize(validated, secretFromEnv).Some? ==> Authorize(validated, secretFromEnv).value == validated.value.user
  {
  }

  /** An empty or missing environment secret admits nobody, even a caller presenting "". */
  lemma AuthorizeEmptySecretRefusesAll<U>(user: U, presented: string, secretFromEnv: Option<string>)
    requires !Truthy(secretFromEnv)
    ensures Authorize(Some(ProviderCredentials(user, presented)), secretFromEnv).None?
  {
  }
}
