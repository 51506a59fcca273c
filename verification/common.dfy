/** Small shared datatypes: optional values, raw form fields, and thrown values. */
module Common {

  /** A value that may be missing (`null` / `undefined` in the source). */
  datatype Option<+T> = None | Some(value: T)

  /** One field of an untyped request body as a schema validator sees it. */
  datatype FieldValue = Absent | Str(s: string) | NonString

  /** A JavaScript value thrown by a callee: an `AuthError` (which is an `Error`),
      any other `Error`, or a thrown value that is not an `Error` at all. */
  datatype Thrown =
    | AuthError(errorType: string, message: string)
    | PlainError(message: string)
    | NonError

  /** `instanceof Error` */
  predicate IsErrorInstance(t: Thrown) {
    t.AuthError? || t.PlainError?
  }

  /** JavaScript truthiness of an optional string: `undefined`, `null` and `""` are falsy. */
  predicate Truthy(o: Option<string>) {
    o.Some? && o.value != ""
  }
}
