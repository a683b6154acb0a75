/** The error taxonomy: session, authentication and registration errors, and garde's report. */
module Errors {
  import opened Records

  /** A field of a form that garde reports on. */
  datatype FormField = NameField | IdentifierField | PasswordField

  /** One garde rule violation. */
  datatype Violation = TooShort(min: nat) | TooLong(max: nat) | PatternMismatch | InvalidEmail

  /** `garde::Report`: the violations in field order. */
  type Report = seq<(FormField, Violation)>

  /** An error of the password-hashing library, carried opaquely. */
  datatype HashError = HashError(reason: string)

  /** `SessionError`. `DatabaseError` also stands for store errors the source passes on unwrapped. */
  datatype SessionError =
    | SessionExpired(expired_at: Datetime)
    | SessionNotFound
    | InvalidToken
    | DatabaseError
    | UserNotFound

  /** `AuthError`. */
  datatype AuthError =
    | InvalidData(report: Report)
    | DatabaseError
    | NotUniqueError(field: string)
    | PasswordHashError(hashError: HashError)
    | PasswordVerificationError(verifyError: HashError)
    | UserNotFound

  /** `RegistrationError`. */
  datatype RegistrationError =
    | InvalidData(report: Report)
    | DatabaseError
    | NotUniqueError(field: string)
    | PasswordHashError(hashError: HashError)

  /** The `Display` text of a `RegistrationError` (its `#[error(...)]` attribute). */
  function RegistrationErrorText(e: RegistrationError): (t: string)
    ensures e.NotUniqueError? ==> t == e.field + " already registered"
  {
    match e
    case InvalidData(_) => "The form data provided is invalid"
    case DatabaseError => "Database operation failed"
    case NotUniqueError(f) => f + " already registered"
    case PasswordHashError(_) => "Failed to hash the password"
  }

  /**
   * An `anyhow::Error`: it may wrap one of the typed errors, which `downcast_ref`
   * recovers, or be a bare message.
   */
  datatype AnyError =
    | AuthErr(auth: AuthError)
    | RegistrationErr(registration: RegistrationError)
    | SessionErr(session: SessionError)
    | Message(text: string)
}
