/**
 * The `register` and `login` endpoints: early-return pipelines over validation,
 * registration or authentication, session creation and the cookie, and the translation
 * of internal errors into HTTP statuses (RFC 9110) and caller-facing messages.
 */
module ServerAuth {
  import opened Wrappers
  import opened Records
  import opened TokenGenerator
  import opened UserModels
  import opened SessionModels
  import opened Errors
  import opened Store
  import opened Http
  import opened AuthForms
  import opened CustomAuth
  import opened SessionManager

  /** `ApiResponse<String>`: the body of every answered call. */
  datatype ApiResponse = ApiResponse(data: Option<string>, error: Option<string>)

  /** `Result<ApiResponse<String>, ServerFnError>`. */
  datatype ServerResult = Ok(response: ApiResponse) | ServerError(message: string)

  /** A body reports either a result or an error, never both and never neither. */
  predicate ExactlyOne(a: ApiResponse) { a.data.Some? != a.error.Some? }

  function Answer(data: string): (a: ApiResponse)
    ensures ExactlyOne(a) && a.data == Some(data)
  {
    ApiResponse(Some(data), None)
  }

  function Refusal(error: string): (a: ApiResponse)
    ensures ExactlyOne(a) && a.error == Some(error)
  {
    ApiResponse(None, Some(error))
  }

  const InvalidCredentials := "Invalid username or password."
  const InternalError := "An internal error occurred."

  /** How `login` answers a failed authentication: status and message. */
  function ClassifyLoginError(e: AnyError): (r: (int, string))
    ensures r.0 == StatusUnauthorized <==>
      e.AuthErr? && (e.auth == AuthError.UserNotFound || e.auth.PasswordVerificationError?)
    ensures r.0 == StatusUnauthorized ==> r.1 == InvalidCredentials
    ensures r.0 != StatusUnauthorized ==> r == (StatusInternalServerError, InternalError)
  {
    match e
    case AuthErr(a) =>
      (match a
       case UserNotFound => (StatusUnauthorized, InvalidCredentials)
       case PasswordVerificationError(_) => (StatusUnauthorized, InvalidCredentials)
       case DatabaseError => (StatusInternalServerError, InternalError)
       case PasswordHashError(_) => (StatusInternalServerError, InternalError)
       case _ => (StatusInternalServerError, InternalError))
    case _ => (StatusInternalServerError, InternalError)
  }

  /** The caller cannot tell an unknown identifier from a wrong password. */
  lemma UnknownUserLooksLikeWrongPassword(e: HashError)
    ensures ClassifyLoginError(AuthErr(AuthError.UserNotFound))
         == ClassifyLoginError(AuthErr(AuthError.PasswordVerificationError(e)))
  {
  }

  /** A store or hash failure is never reported as bad credentials. */
  lemma InternalFailuresAreNotCredentialFailures(e: HashError)
    ensures ClassifyLoginError(AuthErr(AuthError.DatabaseError)).0 == StatusInternalServerError
    ensures ClassifyLoginError(AuthErr(AuthError.PasswordHashError(e))).0 == StatusInternalServerError
  {
  }

  /** The session `create_session` stores: owner, token, one hour of validity from `now`. */
  function NewSession(userId: RecordId, token: string, sid: RecordId, now: Datetime): (s: Session)
    ensures s.id == sid && s.user_id == userId && s.session_token == token
    ensures s.expires_at == now + SessionDuration && s.created_at == now
  {
    StoredSession(SessionModels.CreateSession(userId, token, now + SessionDuration), sid, now)
  }

  const Registered := "The user have been registered successfully"
  const RegisterFailed := "Failed to register the user"
  const RegisterSessionFailed := "Failed to generate session tokens for the registered user"
  const RegisterCookieFailed := "Failed to create appropriate cookies after registration"

  /**
   * `register`. `salt` feeds the hash, `committed` is the store's answer to the
   * registration transaction, `random` the token bytes and `written` the store's answer
   * to the session insert.
   */
  method Register(db: Database, response: ResponseOptions, form: RegistrationFormData, isEmail: string -> bool,
                  hasher: PasswordHasher, salt: string, now: Datetime, committed: bool,
                  random: seq<Byte>, written: bool) returns (r: ServerResult)
    requires db.Valid() && |random| == TokenByteLength
    modifies db, response
    ensures db.Valid()
    ensures db.user == old(db.user)
    ensures r.Ok? ==> ExactlyOne(r.response)
    ensures r != ServerError(RegisterCookieFailed)
    ensures ValidateRegistration(form, isEmail) != [] ==>
      && r == Ok(Refusal(ReportText(ValidateRegistration(form, isEmail))))
      && response.status == Some(StatusUnprocessableContent)
      && unchanged(db) && response.headers == old(response.headers)
    ensures ValidateRegistration(form, isEmail) == [] && ValidateUniqueness(old(db.identifiers), form).Failure? ==>
      && r == Ok(Refusal(RegistrationErrorText(ValidateUniqueness(old(db.identifiers), form).error)))
      && response.status == Some(StatusConflict)
      && unchanged(db) && response.headers == old(response.headers)
    ensures ValidateRegistration(form, isEmail) == [] && ValidateUniqueness(old(db.identifiers), form).Success?
            && (hasher.hash(form.password, salt).Failure? || !committed) ==>
      && r == ServerError(RegisterFailed)
      && db.users == old(db.users) && db.identifiers == old(db.identifiers) && db.sessions == old(db.sessions)
      && response.status == old(response.status) && response.headers == old(response.headers)
    ensures RegistrationChecks(old(db.identifiers), form, isEmail, hasher, salt, committed).Success? ==>
      var uid := RecordId(UsersTable, old(db.nextKey));
      var iid := RecordId(IdentifierTable, old(db.nextKey) + 1);
      var hash := hasher.hash(form.password, salt).value;
      && uid !in old(db.users) && iid !in old(db.identifiers)
      && db.users == old(db.users)[uid := NewUser(form, hash, uid, db.defaultRole, now)]
      && db.identifiers == old(db.identifiers)[iid := NewIdentifier(form, uid, iid, now)]
      && (!written ==>
            && r == ServerError(RegisterSessionFailed) && db.sessions == old(db.sessions)
            && response.status == old(response.status) && response.headers == old(response.headers))
      && (written ==>
            && r == Ok(Answer(Registered))
            && response.status == old(response.status)
            && response.headers == old(response.headers)[SetCookieHeader := SessionCookie(GenerateToken(random))]
            && db.sessions == old(db.sessions)[RecordId(SessionsTable, old(db.nextKey) + 2) :=
                 NewSession(uid, GenerateToken(random), RecordId(SessionsTable, old(db.nextKey) + 2), now)])
  {
    var report := ValidateRegistration(form, isEmail);
    if report != [] {
      response.SetStatus(StatusUnprocessableContent);
      return Ok(Refusal(ReportText(report)));
    }
    var unique := ValidateUniqueness(db.identifiers, form);
    if unique.Failure? {
      response.SetStatus(StatusConflict);
      return Ok(Refusal(RegistrationErrorText(unique.error)));
    }
    var registration := RegisterUser(db, form, isEmail, hasher, salt, now, committed);
    if registration.Failure? {
      return ServerError(RegisterFailed);
    }
    var uid := registration.value;
    var session := SessionManager.CreateSession(db, uid, now, random, written);
    if session.Failure? {
      return ServerError(RegisterSessionFailed);
    }
    var token := session.value;
    GeneratedTokenIsValid(random);
    SessionCookieIsHeaderValue(token);
    var cookie := SetSessionCookie(response, token);
    if cookie.Failure? {
      assert false;
    }
    return Ok(Answer(Registered));
  }

  const LoggedIn := "The user have been logged in successfully"
  const LoginSessionFailed := "Failed to create user session."
  const LoginCookieFailed := "Failed to set session cookie."

  /** `login`: the form is not validated; it goes straight to authentication. */
  method Login(db: Database, response: ResponseOptions, form: LoginFormData, hasher: PasswordHasher,
               now: Datetime, random: seq<Byte>, written: bool) returns (r: ServerResult)
    requires db.Valid() && |random| == TokenByteLength
    modifies db, response
    ensures db.Valid()
    ensures r.Ok? && ExactlyOne(r.response)
    ensures r.response.error != Some(LoginCookieFailed)
    ensures db.users == old(db.users) && db.user == old(db.user) && db.identifiers == old(db.identifiers)
    ensures var auth := Authenticate(old(db.users), old(db.identifiers), form, hasher);
      auth.Failure? ==>
        && r == Ok(Refusal(ClassifyLoginError(AuthErr(auth.error)).1))
        && response.status == Some(ClassifyLoginError(AuthErr(auth.error)).0)
        && db.sessions == old(db.sessions) && response.headers == old(response.headers)
    ensures var auth := Authenticate(old(db.users), old(db.identifiers), form, hasher);
      auth.Success? && !written ==>
        && r == Ok(Refusal(LoginSessionFailed))
        && response.status == Some(StatusInternalServerError)
        && db.sessions == old(db.sessions) && response.headers == old(response.headers)
    ensures var auth := Authenticate(old(db.users), old(db.identifiers), form, hasher);
      auth.Success? && written ==>
        && r == Ok(Answer(LoggedIn))
        && response.status == old(response.status)
        && response.headers == old(response.headers)[SetCookieHeader := SessionCookie(GenerateToken(random))]
        && db.sessions == old(db.sessions)[RecordId(SessionsTable, old(db.nextKey)) :=
             NewSession(auth.value, GenerateToken(random), RecordId(SessionsTable, old(db.nextKey)), now)]
  {
    var auth := Authenticate(db.users, db.identifiers, form, hasher);
    if auth.Failure? {
      var (status, message) := ClassifyLoginError(AuthErr(auth.error));
      response.SetStatus(status);
      return Ok(Refusal(message));
    }
    var session := SessionManager.CreateSession(db, auth.value, now, random, written);
    if session.Failure? {
      response.SetStatus(StatusInternalServerError);
      return Ok(Refusal(LoginSessionFailed));
    }
    var token := session.value;
    GeneratedTokenIsValid(random);
    SessionCookieIsHeaderValue(token);
    var cookie := SetSessionCookie(response, token);
    if cookie.Failure? {
      assert false;
    }
    return Ok(Answer(LoggedIn));
  }

  /**
   * For a known identifier, a wrong password and an unknown identifier get the same status
   * and the same body from `login`.
   */
  lemma LoginDoesNotRevealAccounts(users: map<RecordId, User>, identifiers: map<RecordId, IdentifierRecord>,
                                   known: LoginFormData, unknown: LoginFormData, hasher: PasswordHasher)
    requires Authenticate(users, identifiers, known, hasher).Failure?
    requires Authenticate(users, identifiers, known, hasher).error.PasswordVerificationError?
    requires RowsFor(identifiers, unknown.identifier) == {}
    ensures ClassifyLoginError(AuthErr(Authenticate(users, identifiers, known, hasher).error))
         == ClassifyLoginError(AuthErr(Authenticate(users, identifiers, unknown, hasher).error))
  {
  }
}
