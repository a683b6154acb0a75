/**
 * The session manager: token-shape validation, the session cookie, and the operations
 * on the `sessions` table (create, look up the owner, delete, rotate, extend, sweep).
 */
module SessionManager {
  import opened Wrappers
  import opened Text
  import opened Records
  import opened TokenGenerator
  import opened SessionModels
  import opened UserModels
  import opened Errors
  import opened Store
  import opened Http

  const SessionDurationInHours := 1
  /** The session lifetime in seconds: one hour. */
  const SessionDuration := SessionDurationInHours * 60 * 60

  // ---------------------------------------------------------------- token shape

  /** The validator's alphabet: letters and digits, `-` and `_`. */
  predicate IsTokenChar(c: char) { IsAsciiAlphanumeric(c) || c == '-' || c == '_' }

  /** `validate_session_token`: non-empty, 40 to 50 bytes long, only token characters. */
  function ValidateSessionToken(token: string): (r: Result<(), SessionError>)
    ensures r.Success? <==>
      token != [] && 40 <= Utf8Len(token) <= 50 && forall i :: 0 <= i < |token| ==> IsTokenChar(token[i])
    ensures r.Failure? ==> r.error == SessionError.InvalidToken
    ensures r.Success? ==> 40 <= |token| <= 50 && ';' !in token
  {
    if token == [] then Failure(SessionError.InvalidToken)
    else if Utf8Len(token) < 40 || Utf8Len(token) > 50 then Failure(SessionError.InvalidToken)
    else if !(forall i | 0 <= i < |token| :: IsTokenChar(token[i])) then Failure(SessionError.InvalidToken)
    else
      assert AllAscii(token) by {
        forall i | 0 <= i < |token| ensures IsAscii(token[i]) { assert IsTokenChar(token[i]); }
      }
      Success(())
  }

  /** Every token the generator produces passes the shape check. */
  lemma GeneratedTokenIsValid(random: seq<Byte>)
    requires |random| == TokenByteLength
    ensures ValidateSessionToken(GenerateToken(random)).Success?
  {
    var t := GenerateToken(random);
    assert AllAscii(t) by {
      forall i | 0 <= i < |t| ensures IsAscii(t[i]) { assert IsUrlSafeChar(t[i]); }
    }
    assert forall i :: 0 <= i < |t| ==> IsTokenChar(t[i]) by {
      forall i | 0 <= i < |t| ensures IsTokenChar(t[i]) { assert IsUrlSafeChar(t[i]); }
    }
  }

  // ---------------------------------------------------------------- the cookie

  /** The cookie name, with the `__Host-` prefix of RFC 6265bis. */
  const CookieName := "__Host-session"

  /** The `;`-separated pieces of the session cookie: `name=token`, then its attributes. */
  function CookiePieces(token: string): seq<string> {
    [CookieName + "=" + token, " Path=/", " Secure", " HttpOnly", " SameSite=Lax",
     " Max-Age=" + NatToString(SessionDurationInHours * 60 * 60)]
  }

  /** `Max-Age` is written in decimal: 3600 seconds. */
  lemma MaxAgeText()
    ensures CookiePieces("")[5] == " Max-Age=3600"
  {
    assert NatToString(3) == "3";
    assert NatToString(36) == NatToString(3) + [DigitChar(6)];
    assert NatToString(360) == NatToString(36) + [DigitChar(0)];
  }

  /** The `Set-Cookie` value of `set_session_cookie` (cookie syntax of section 4.1 of RFC 6265). */
  function SessionCookie(token: string): (cookie: string)
    ensures cookie ==
      Join([CookieName + "=" + token, " Path=/", " Secure", " HttpOnly", " SameSite=Lax", " Max-Age=3600"], ";")
  {
    MaxAgeText();
    Join(CookiePieces(token), ";")
  }

  predicate HasPrefix(s: string, prefix: string) { |prefix| <= |s| && s[..|prefix|] == prefix }

  /**
   * The requirements RFC 6265bis (section 4.1.3.2) places on a `__Host-` cookie, read on the
   * `;`-separated pieces of a `Set-Cookie` value: the name carries the prefix, `Secure` and
   * `Path=/` are present, and there is no `Domain` attribute.
   */
  predicate MeetsHostPrefixRules(pieces: seq<string>) {
    && |pieces| >= 1
    && HasPrefix(pieces[0], "__Host-")
    && " Secure" in pieces
    && " Path=/" in pieces
    && forall i :: 1 <= i < |pieces| ==> !HasPrefix(pieces[i], " Domain=")
  }

  /** No piece of the cookie of a well-formed token contains the separator. */
  lemma CookiePiecesSeparatorFree(token: string)
    requires ValidateSessionToken(token).Success?
    ensures forall i :: 0 <= i < 6 ==> ';' !in CookiePieces(token)[i]
  {
    var p := CookiePieces(token);
    MaxAgeText();
    assert ';' !in p[0] by {
      assert forall i :: 0 <= i < |CookieName + "="| ==> (CookieName + "=")[i] != ';';
    }
    assert ';' !in p[1];
    assert ';' !in p[2];
    assert ';' !in p[3];
    assert ';' !in p[4];
    assert ';' !in p[5];
  }

  /** For a well-formed token the cookie splits into the pair `name=token` and exactly the five attributes. */
  lemma SessionCookiePieces(token: string)
    requires ValidateSessionToken(token).Success?
    ensures Split(SessionCookie(token), ';') ==
      [CookieName + "=" + token, " Path=/", " Secure", " HttpOnly", " SameSite=Lax", " Max-Age=3600"]
  {
    CookiePiecesSeparatorFree(token);
    SplitJoin(CookiePieces(token), ';');
    MaxAgeText();
  }

  /** The cookie of a well-formed token meets the `__Host-` prefix rules. */
  lemma SessionCookieIsHostCookie(token: string)
    requires ValidateSessionToken(token).Success?
    ensures MeetsHostPrefixRules(Split(SessionCookie(token), ';'))
  {
    SessionCookiePieces(token);
    var p := Split(SessionCookie(token), ';');
    assert p[0][..7] == "__Host-";
    assert p[2] == " Secure" && p[1] == " Path=/";
    forall i | 1 <= i < |p| ensures !HasPrefix(p[i], " Domain=") {
      if |p[i]| >= 8 {
        assert p[i][1] != 'D';
        assert p[i][..8][1] == p[i][1];
      }
    }
  }

  /** The cookie of a well-formed token is a legal header value, so setting it cannot fail. */
  lemma SessionCookieIsHeaderValue(token: string)
    requires ValidateSessionToken(token).Success?
    ensures IsHeaderValue(SessionCookie(token))
  {
    var pieces := CookiePieces(token);
    var pair := pieces[0];
    assert IsHeaderValue(pair) by {
      var name := CookieName + "=";
      assert pair == name + token;
      forall i | 0 <= i < |pair| ensures IsHeaderValueChar(pair[i]) {
        if i < |name| { assert pair[i] == name[i]; }
        else { assert pair[i] == token[i - |name|]; assert IsTokenChar(token[i - |name|]); }
      }
    }
    MaxAgeText();
    JoinIsHeaderValue(pieces, ";");
  }

  /** `set_session_cookie`: builds the cookie and inserts it as the `Set-Cookie` header. */
  method SetSessionCookie(response: ResponseOptions, token: string) returns (r: Result<(), AnyError>)
    modifies response
    ensures r.Success? <==> IsHeaderValue(SessionCookie(token))
    ensures r.Success? ==> response.headers == old(response.headers)[SetCookieHeader := SessionCookie(token)]
    ensures r.Failure? ==> response.headers == old(response.headers) && r.error == Message("Failed to set sesion headers")
    ensures response.status == old(response.status)
  {
    var cookie := SessionCookie(token);
    if !IsHeaderValue(cookie) {
      return Failure(Message("Failed to set sesion headers"));
    }
    response.InsertHeader(SetCookieHeader, cookie);
    return Success(());
  }

  // ---------------------------------------------------------------- lookup by token

  /** The keys of the sessions whose token is `token` (`WHERE session_token = $token`). */
  function TokenMatches(sessions: map<RecordId, Session>, token: string): (ids: set<RecordId>)
    ensures forall id :: id in ids <==> id in sessions && sessions[id].session_token == token
  {
    set id | id in sessions && sessions[id].session_token == token
  }

  /** Which comparison decides that a session has expired. */
  datatype ExpiryRule =
    | AsWritten  // `expires_at >= now`, the test in the source
    | Intended   // `now > expires_at`

  predicate IsExpired(rule: ExpiryRule, expiresAt: Datetime, now: Datetime) {
    match rule
    case AsWritten => expiresAt >= now
    case Intended => now > expiresAt
  }

  /**
   * The chain of `get_user_by_session` under a given expiry test: shape check, the session
   * row for the token (taking one row out of several is a store error), the expiry test,
   * then the owner by id.
   */
  function OwnerBySession(rule: ExpiryRule, sessions: map<RecordId, Session>, users: map<RecordId, User>,
                          userTable: map<RecordId, User>, token: string, now: Datetime): (r: Result<User, SessionError>)
    ensures ValidateSessionToken(token).Failure? ==> r == Failure(SessionError.InvalidToken)
    ensures r == Failure(SessionNotFound) <==> ValidateSessionToken(token).Success? && TokenMatches(sessions, token) == {}
    ensures r.Success? ==>
      exists id :: id in TokenMatches(sessions, token) && !IsExpired(rule, sessions[id].expires_at, now)
                   && SelectUser(users, userTable, sessions[id].user_id) == Some(r.value)
    ensures r.Failure? && r.error.SessionExpired? ==>
      exists id :: id in TokenMatches(sessions, token) && sessions[id].expires_at == r.error.expired_at
                   && IsExpired(rule, r.error.expired_at, now)
    ensures forall id :: ValidateSessionToken(token).Success? && TokenMatches(sessions, token) == {id} ==>
      r == (if IsExpired(rule, sessions[id].expires_at, now) then Failure(SessionExpired(sessions[id].expires_at))
            else if SelectUser(users, userTable, sessions[id].user_id).None? then Failure(SessionError.UserNotFound)
            else Success(SelectUser(users, userTable, sessions[id].user_id).value))
  {
    if ValidateSessionToken(token).Failure? then Failure(SessionError.InvalidToken)
    else
      var matches := TokenMatches(sessions, token);
      if |matches| == 0 then Failure(SessionNotFound)
      else if |matches| > 1 then Failure(SessionError.DatabaseError)
      else
        var id := TheOnly(matches);
        var s := sessions[id];
        if IsExpired(rule, s.expires_at, now) then Failure(SessionExpired(s.expires_at))
        else match SelectUser(users, userTable, s.user_id)
          case None => Failure(SessionError.UserNotFound)
          case Some(u) => Success(u)
  }

  /** `get_user_by_session` as written: a session counts as expired while `expires_at >= now`. */
  function GetUserBySessionAsWritten(sessions: map<RecordId, Session>, users: map<RecordId, User>,
                                     userTable: map<RecordId, User>, token: string, now: Datetime): (r: Result<User, SessionError>)
    ensures r.Success? ==> exists id :: id in TokenMatches(sessions, token) && sessions[id].expires_at < now
  {
    OwnerBySession(AsWritten, sessions, users, userTable, token, now)
  }

  /** `get_user_by_session` with the intended test: a session has expired once `now > expires_at`. */
  function GetUserBySession(sessions: map<RecordId, Session>, users: map<RecordId, User>,
                            userTable: map<RecordId, User>, token: string, now: Datetime): (r: Result<User, SessionError>)
    ensures r.Success? ==> exists id :: id in TokenMatches(sessions, token) && now <= sessions[id].expires_at
  {
    OwnerBySession(Intended, sessions, users, userTable, token, now)
  }

  /** A session table after `CreateSession` stored `s` under `id`, and no other session has its token. */
  predicate OnlySessionWithToken(sessions: map<RecordId, Session>, id: RecordId) {
    id in sessions && TokenMatches(sessions, sessions[id].session_token) == {id}
  }

  /** As written, a session is rejected as expired at the very moment it is created. */
  lemma FreshSessionRejectedAsWritten(sessions: map<RecordId, Session>, users: map<RecordId, User>,
                                      userTable: map<RecordId, User>, id: RecordId, now: Datetime)
    requires OnlySessionWithToken(sessions, id)
    requires ValidateSessionToken(sessions[id].session_token).Success?
    requires sessions[id].expires_at == now + SessionDuration
    ensures GetUserBySessionAsWritten(sessions, users, userTable, sessions[id].session_token, now)
            == Failure(SessionExpired(now + SessionDuration))
  {
  }

  /** As written, a session whose expiry has passed is accepted. */
  lemma StaleSessionAcceptedAsWritten(sessions: map<RecordId, Session>, users: map<RecordId, User>,
                                      userTable: map<RecordId, User>, id: RecordId, now: Datetime)
    requires OnlySessionWithToken(sessions, id)
    requires ValidateSessionToken(sessions[id].session_token).Success?
    requires sessions[id].expires_at < now
    requires SelectUser(users, userTable, sessions[id].user_id).Some?
    ensures GetUserBySessionAsWritten(sessions, users, userTable, sessions[id].session_token, now)
            == Success(SelectUser(users, userTable, sessions[id].user_id).value)
  {
  }

  /**
   * With the intended test a session created at `created` resolves to its owner at every
   * `now` from `created` up to `created + SessionDuration`, and is rejected as expired after.
   */
  lemma SessionLifecycle(sessions: map<RecordId, Session>, users: map<RecordId, User>,
                         userTable: map<RecordId, User>, id: RecordId, created: Datetime, now: Datetime)
    requires OnlySessionWithToken(sessions, id)
    requires ValidateSessionToken(sessions[id].session_token).Success?
    requires sessions[id].expires_at == created + SessionDuration
    requires SelectUser(users, userTable, sessions[id].user_id).Some?
    ensures now <= created + SessionDuration ==>
      GetUserBySession(sessions, users, userTable, sessions[id].session_token, now)
        == Success(SelectUser(users, userTable, sessions[id].user_id).value)
    ensures now > created + SessionDuration ==>
      GetUserBySession(sessions, users, userTable, sessions[id].session_token, now)
        == Failure(SessionExpired(created + SessionDuration))
  {
  }

  /** A token of the wrong shape never reaches the table: e.g. a ten-character token. */
  lemma ShortTokenNeverLooksUp(sessions: map<RecordId, Session>, users: map<RecordId, User>,
                               userTable: map<RecordId, User>, token: string, now: Datetime)
    requires Utf8Len(token) < 40
    ensures GetUserBySession(sessions, users, userTable, token, now) == Failure(SessionError.InvalidToken)
    ensures GetUserBySessionAsWritten(sessions, users, userTable, token, now) == Failure(SessionError.InvalidToken)
  {
  }

  // ---------------------------------------------------------------- writes

  /** `create_session`: a fresh token, expiring one hour from `now`; `written` is the store's answer to the insert. */
  method CreateSession(db: Database, userId: RecordId, now: Datetime, random: seq<Byte>, written: bool)
    returns (r: Result<string, SessionError>)
    requires db.Valid() && |random| == TokenByteLength
    modifies db
    ensures db.Valid()
    ensures db.users == old(db.users) && db.user == old(db.user) && db.identifiers == old(db.identifiers)
    ensures !written ==> r == Failure(SessionError.DatabaseError) && db.sessions == old(db.sessions)
    ensures db.nextKey == if written then old(db.nextKey) + 1 else old(db.nextKey)
    ensures written ==> r == Success(GenerateToken(random))
    ensures written ==>
      var id := RecordId(SessionsTable, old(db.nextKey));
      && id !in old(db.sessions)
      && db.sessions == old(db.sessions)[id := StoredSession(
           SessionModels.CreateSession(userId, GenerateToken(random), now + SessionDuration), id, now)]
  {
    var token := GenerateToken(random);
    var expiresAt := now + SessionDuration;
    var record := SessionModels.CreateSession(userId, token, expiresAt);
    if !written {
      return Failure(SessionError.DatabaseError);
    }
    var id := RecordId(SessionsTable, db.nextKey);
    db.sessions := db.sessions[id := StoredSession(record, id, now)];
    db.nextKey := db.nextKey + 1;
    return Success(token);
  }

  /** The table after `DELETE sessions WHERE session_token = $token`. */
  function WithoutToken(sessions: map<RecordId, Session>, token: string): (r: map<RecordId, Session>)
    ensures TokenMatches(r, token) == {}
    ensures forall id :: id in r <==> id in sessions && sessions[id].session_token != token
    ensures forall id | id in r :: r[id] == sessions[id]
  {
    map id | id in sessions && sessions[id].session_token != token :: sessions[id]
  }

  /** Deleting a token a second time changes nothing: deletion is idempotent. */
  lemma WithoutTokenIdempotent(sessions: map<RecordId, Session>, token: string)
    ensures WithoutToken(WithoutToken(sessions, token), token) == WithoutToken(sessions, token)
  {
  }

  /** `delete_session`: a malformed token is refused; otherwise every session with that token goes, and a missing one is not an error. */
  method DeleteSession(db: Database, token: string) returns (r: Result<(), SessionError>)
    requires db.Valid()
    modifies db
    ensures db.Valid()
    ensures db.users == old(db.users) && db.user == old(db.user) && db.identifiers == old(db.identifiers)
    ensures r == ValidateSessionToken(token)
    ensures r.Failure? ==> db.sessions == old(db.sessions)
    ensures r.Success? ==> db.sessions == WithoutToken(old(db.sessions), token)
  {
    r := ValidateSessionToken(token);
    if r.Failure? {
      return;
    }
    db.sessions := WithoutToken(db.sessions, token);
  }

  /** `update(id).merge(patch)`: merges into the record with that id, and changes nothing when there is none. */
  function MergeAt(sessions: map<RecordId, Session>, id: RecordId, patch: UpdateSession): (r: map<RecordId, Session>)
    ensures r.Keys == sessions.Keys
    ensures forall other | other in sessions && other != id :: r[other] == sessions[other]
    ensures id in sessions ==> r[id] == Merge(sessions[id], patch)
  {
    if id in sessions then sessions[id := Merge(sessions[id], patch)] else sessions
  }

  /**
   * The record addressed by `id`, read back as an `Option<Session>` (after `select(id)` or
   * `update(id).merge(..)`): the session when `id` names one, nothing when no record has that
   * id, and a store error when `id` names a record of another table, whose fields do not
   * deserialise as a session.
   */
  function ReadSession(sessions: map<RecordId, Session>, users: map<RecordId, User>, userTable: map<RecordId, User>,
                       identifiers: map<RecordId, IdentifierRecord>, id: RecordId): (r: Result<Option<Session>, SessionError>)
    ensures id in sessions ==> r == Success(Some(sessions[id]))
    ensures r == Failure(SessionError.DatabaseError) <==>
      id !in sessions && (id in users || id in userTable || id in identifiers)
    ensures r == Success(None) <==> id !in sessions && id !in users && id !in userTable && id !in identifiers
  {
    if id in sessions then Success(Some(sessions[id]))
    else if id in users || id in userTable || id in identifiers then Failure(SessionError.DatabaseError)
    else Success(None)
  }

  /**
   * `update_session_token`: a fresh token merged into the record addressed by `userId`, expiry
   * untouched. Reading the merged record back fails when `userId` names a record of another table.
   */
  method UpdateSessionToken(db: Database, userId: RecordId, random: seq<Byte>) returns (r: Result<string, SessionError>)
    requires db.Valid() && |random| == TokenByteLength
    modifies db
    ensures db.Valid()
    ensures db.users == old(db.users) && db.user == old(db.user) && db.identifiers == old(db.identifiers)
    ensures db.nextKey == old(db.nextKey)
    ensures var read := ReadSession(old(db.sessions), old(db.users), old(db.user), old(db.identifiers), userId);
      && (read.Failure? ==> r == Failure(SessionError.DatabaseError) && db.sessions == old(db.sessions))
      && (read.Success? ==>
            && r == Success(GenerateToken(random))
            && db.sessions == MergeAt(old(db.sessions), userId, UpdateSession(Some(GenerateToken(random)), None)))
  {
    var read := ReadSession(db.sessions, db.users, db.user, db.identifiers, userId);
    if read.Failure? {
      return Failure(read.error);
    }
    var token := GenerateToken(random);
    db.sessions := MergeAt(db.sessions, userId, UpdateSession(Some(token), None));
    return Success(token);
  }

  /**
   * `update_session_expiry`: one hour added to the stored expiry (not to the current time); the
   * token is kept. No record is `SessionNotFound`; a record of another table is a store error.
   */
  method UpdateSessionExpiry(db: Database, userId: RecordId) returns (r: Result<(), SessionError>)
    requires db.Valid()
    modifies db
    ensures db.Valid()
    ensures db.users == old(db.users) && db.user == old(db.user) && db.identifiers == old(db.identifiers)
    ensures db.nextKey == old(db.nextKey)
    ensures var read := ReadSession(old(db.sessions), old(db.users), old(db.user), old(db.identifiers), userId);
      && (read.Failure? ==> r == Failure(SessionError.DatabaseError) && db.sessions == old(db.sessions))
      && (read == Success(None) ==> r == Failure(SessionNotFound) && db.sessions == old(db.sessions))
      && (read.Success? && read.value.Some? ==>
            && r == Success(())
            && db.sessions == MergeAt(old(db.sessions), userId,
                                      UpdateSession(None, Some(read.value.value.expires_at + SessionDuration))))
  {
    var read := ReadSession(db.sessions, db.users, db.user, db.identifiers, userId);
    if read.Failure? {
      return Failure(read.error);
    }
    if read.value.None? {
      return Failure(SessionNotFound);
    }
    var session := read.value.value;
    var newExpiresAt := session.expires_at + SessionDuration;
    db.sessions := MergeAt(db.sessions, userId, UpdateSession(None, Some(newExpiresAt)));
    return Success(());
  }

  /** `update_session_expiry_and_token`: both changes in one merge; the new token is returned. */
  method UpdateSessionExpiryAndToken(db: Database, userId: RecordId, random: seq<Byte>)
    returns (r: Result<string, SessionError>)
    requires db.Valid() && |random| == TokenByteLength
    modifies db
    ensures db.Valid()
    ensures db.users == old(db.users) && db.user == old(db.user) && db.identifiers == old(db.identifiers)
    ensures db.nextKey == old(db.nextKey)
    ensures var read := ReadSession(old(db.sessions), old(db.users), old(db.user), old(db.identifiers), userId);
      && (read.Failure? ==> r == Failure(SessionError.DatabaseError) && db.sessions == old(db.sessions))
      && (read == Success(None) ==> r == Failure(SessionNotFound) && db.sessions == old(db.sessions))
      && (read.Success? && read.value.Some? ==>
            && r == Success(GenerateToken(random))
            && db.sessions == MergeAt(old(db.sessions), userId,
                                      UpdateSession(Some(GenerateToken(random)),
                                                    Some(read.value.value.expires_at + SessionDuration))))
  {
    var read := ReadSession(db.sessions, db.users, db.user, db.identifiers, userId);
    if read.Failure? {
      return Failure(read.error);
    }
    if read.value.None? {
      return Failure(SessionNotFound);
    }
    var session := read.value.value;
    var newExpiresAt := session.expires_at + SessionDuration;
    var token := GenerateToken(random);
    db.sessions := MergeAt(db.sessions, userId, UpdateSession(Some(token), Some(newExpiresAt)));
    return Success(token);
  }

  /**
   * Rotation and extension address a record by the id they are given. The source passes the
   * owner's id, which names a record of the `users` table and never a session: reading that
   * record as a session is a store error, so for an existing user all three operations fail
   * with `DatabaseError` and no session changes.
   */
  lemma UserIdIsNotASession(sessions: map<RecordId, Session>, users: map<RecordId, User>, userTable: map<RecordId, User>,
                            identifiers: map<RecordId, IdentifierRecord>, nextKey: int, userId: RecordId)
    requires SessionsWellFormed(sessions, nextKey) && UsersWellFormed(users, UsersTable, nextKey)
    requires userId in users
    ensures userId !in sessions
    ensures ReadSession(sessions, users, userTable, identifiers, userId) == Failure(SessionError.DatabaseError)
  {
    assert userId.tb == UsersTable;
  }

  // ---------------------------------------------------------------- sweep

  /** The table after deleting every session with `expires_at <= now`. */
  function Sweep(sessions: map<RecordId, Session>, now: Datetime): (r: map<RecordId, Session>)
    ensures forall id :: id in r <==> id in sessions && sessions[id].expires_at > now
    ensures forall id | id in r :: r[id] == sessions[id]
  {
    map id | id in sessions && !(sessions[id].expires_at <= now) :: sessions[id]
  }

  /**
   * The table after `DELETE sessions WHERE expired_at <= time::now()` as written: no record has
   * an `expired_at` field, so the condition compares an absent value with the time, and its
   * outcome is the same for every record. `absentBeforeNow` is how the store orders an
   * absent value against a datetime.
   */
  function SweepAsWritten(sessions: map<RecordId, Session>, absentBeforeNow: bool): (r: map<RecordId, Session>)
    ensures r == map[] || r == sessions
  {
    if absentBeforeNow then map[] else sessions
  }

  /** After the sweep, looking up any token never reports an expired session. */
  lemma SweptTableHasNoExpiredSession(sessions: map<RecordId, Session>, users: map<RecordId, User>,
                                      userTable: map<RecordId, User>, token: string, now: Datetime)
    ensures !GetUserBySession(Sweep(sessions, now), users, userTable, token, now).Failure?
         || !GetUserBySession(Sweep(sessions, now), users, userTable, token, now).error.SessionExpired?
  {
  }

  /**
   * As written, the sweep ignores expiry: for a table holding one expired and one live
   * session it either deletes the live one too or keeps the expired one.
   */
  lemma SweepAsWrittenIgnoresExpiry(expired: Session, live: Session, now: Datetime, absentBeforeNow: bool)
    requires expired.id != live.id
    requires expired.expires_at <= now < live.expires_at
    ensures var sessions := map[expired.id := expired, live.id := live];
      SweepAsWritten(sessions, absentBeforeNow) != Sweep(sessions, now)
  {
    var sessions := map[expired.id := expired, live.id := live];
    if absentBeforeNow {
      assert live.id in Sweep(sessions, now);
    } else {
      assert expired.id !in Sweep(sessions, now);
    }
  }

  /** `cleanup_expired_sessions` as written. */
  method CleanupExpiredSessionsAsWritten(db: Database, absentBeforeNow: bool)
    requires db.Valid()
    modifies db
    ensures db.Valid()
    ensures db.users == old(db.users) && db.user == old(db.user) && db.identifiers == old(db.identifiers)
    ensures db.sessions == SweepAsWritten(old(db.sessions), absentBeforeNow)
  {
    db.sessions := SweepAsWritten(db.sessions, absentBeforeNow);
  }

  /** `cleanup_expired_sessions` filtering on `expires_at`, as intended. */
  method CleanupExpiredSessions(db: Database, now: Datetime)
    requires db.Valid()
    modifies db
    ensures db.Valid()
    ensures db.users == old(db.users) && db.user == old(db.user) && db.identifiers == old(db.identifiers)
    ensures db.sessions == Sweep(old(db.sessions), now)
  {
    db.sessions := Sweep(db.sessions, now);
  }
}
