/**
 * Registration (validate, check uniqueness, hash, create the user and its identifier in one
 * transaction) and authentication (identifier lookup, owner lookup, password verification).
 */
module CustomAuth {
  import opened Wrappers
  import opened Records
  import opened UserModels
  import opened Errors
  import opened Store
  import opened AuthForms

  /**
   * The password-hashing library: `hash(password, salt)` gives the stored PHC string,
   * `parse` reads a stored string back, `verify(password, stored)` checks a password.
   */
  datatype PasswordHasher = PasswordHasher(
    hash: (string, string) -> Result<string, HashError>,
    parse: string -> Result<(), HashError>,
    verify: (string, string) -> Result<(), HashError>)

  /** What the library promises: a hash it produced parses, and the password it came from verifies. */
  ghost predicate Sound(h: PasswordHasher) {
    forall password, salt | h.hash(password, salt).Success? ::
      h.parse(h.hash(password, salt).value).Success? && h.verify(password, h.hash(password, salt).value).Success?
  }

  // ---------------------------------------------------------------- table invariants

  /** No two identifier rows carry the same tag and value. */
  predicate IdentifiersUnique(identifiers: map<RecordId, IdentifierRecord>) {
    forall a, b | a in identifiers && b in identifiers &&
                  identifiers[a].identifier_type == identifiers[b].identifier_type &&
                  identifiers[a].identifier_value == identifiers[b].identifier_value :: a == b
  }

  /** Every identifier row names a user of `users`. */
  predicate IdentifiersOwned(identifiers: map<RecordId, IdentifierRecord>, users: map<RecordId, User>) {
    forall id | id in identifiers :: identifiers[id].user_id in users
  }

  /** Adding a row for an identifier nobody holds keeps identifiers unique. */
  lemma InsertKeepsUnique(identifiers: map<RecordId, IdentifierRecord>, iid: RecordId, i: Identifier,
                          owner: RecordId, now: Datetime)
    requires IdentifiersUnique(identifiers)
    requires iid !in identifiers
    requires RowsFor(identifiers, i) == {}
    ensures IdentifiersUnique(identifiers[iid := StoredIdentifier(CreateUserIdentifier(i, owner), iid, now)])
  {
    var rec := StoredIdentifier(CreateUserIdentifier(i, owner), iid, now);
    var m := identifiers[iid := rec];
    forall a, b | a in m && b in m && m[a].identifier_type == m[b].identifier_type &&
                  m[a].identifier_value == m[b].identifier_value
      ensures a == b
    {
    }
  }

  /** Adding a user together with an identifier row that names it keeps every row owned. */
  lemma InsertKeepsOwned(identifiers: map<RecordId, IdentifierRecord>, users: map<RecordId, User>,
                         iid: RecordId, rec: IdentifierRecord, uid: RecordId, user: User)
    requires IdentifiersOwned(identifiers, users)
    requires rec.user_id == uid
    ensures IdentifiersOwned(identifiers[iid := rec], users[uid := user])
  {
  }

  /** Under unique identifiers a lookup by tag and value finds at most one row. */
  lemma UniqueLookup(identifiers: map<RecordId, IdentifierRecord>, i: Identifier)
    requires IdentifiersUnique(identifiers)
    ensures |RowsFor(identifiers, i)| <= 1
  {
    var rows := RowsFor(identifiers, i);
    if rows != {} {
      var a :| a in rows;
      assert rows == {a} by {
        forall b | b in rows ensures b == a { }
      }
    }
  }

  // ---------------------------------------------------------------- registration

  /**
   * The checks `register_user` makes before writing, in order: the form, uniqueness, the
   * hash, then the transaction's commit. Success carries the hash to store.
   */
  function RegistrationChecks(identifiers: map<RecordId, IdentifierRecord>, form: RegistrationFormData,
                              isEmail: string -> bool, hasher: PasswordHasher, salt: string, committed: bool)
    : (r: Result<string, AnyError>)
    ensures ValidateRegistration(form, isEmail) != [] ==>
      r == Failure(AuthErr(AuthError.InvalidData(ValidateRegistration(form, isEmail))))
    ensures ValidateRegistration(form, isEmail) == [] && ValidateUniqueness(identifiers, form).Failure? ==>
      r == Failure(RegistrationErr(ValidateUniqueness(identifiers, form).error))
    ensures ValidateRegistration(form, isEmail) == [] && ValidateUniqueness(identifiers, form).Success?
            && hasher.hash(form.password, salt).Failure? ==>
      r == Failure(AuthErr(AuthError.PasswordHashError(hasher.hash(form.password, salt).error)))
    ensures ValidateRegistration(form, isEmail) == [] && ValidateUniqueness(identifiers, form).Success?
            && hasher.hash(form.password, salt).Success? && !committed ==>
      r == Failure(AuthErr(AuthError.DatabaseError))
    ensures r.Success? <==>
      RegistrationValid(form, isEmail) && RowsFor(identifiers, form.identifier) == {}
      && hasher.hash(form.password, salt).Success? && committed
    ensures r.Success? ==> r.value == hasher.hash(form.password, salt).value
  {
    var report := ValidateRegistration(form, isEmail);
    if report != [] then Failure(AuthErr(AuthError.InvalidData(report)))
    else
      var unique := ValidateUniqueness(identifiers, form);
      if unique.Failure? then Failure(RegistrationErr(unique.error))
      else
        var hashed := hasher.hash(form.password, salt);
        if hashed.Failure? then Failure(AuthErr(AuthError.PasswordHashError(hashed.error)))
        else if !committed then Failure(AuthErr(AuthError.DatabaseError))
        else Success(hashed.value)
  }

  /** The user and identifier rows a successful registration adds under `uid` and `iid`. */
  function NewUser(form: RegistrationFormData, hash: string, uid: RecordId, role: string, now: Datetime): User {
    StoredUser(CreateUser(form.name, hash), uid, role, now)
  }

  function NewIdentifier(form: RegistrationFormData, uid: RecordId, iid: RecordId, now: Datetime): IdentifierRecord {
    StoredIdentifier(CreateUserIdentifier(form.identifier, uid), iid, now)
  }

  /**
   * `register_user`. `salt` is the freshly generated salt; `committed` is whether the
   * store commits the two-record transaction. The new user takes key `nextKey`, its
   * identifier row the next one; both are written or neither.
   */
  method RegisterUser(db: Database, form: RegistrationFormData, isEmail: string -> bool, hasher: PasswordHasher,
                      salt: string, now: Datetime, committed: bool) returns (r: Result<RecordId, AnyError>)
    requires db.Valid()
    modifies db
    ensures db.Valid()
    ensures db.user == old(db.user) && db.sessions == old(db.sessions)
    ensures var checks := RegistrationChecks(old(db.identifiers), form, isEmail, hasher, salt, committed);
      && (checks.Failure? ==> r == Failure(checks.error))
      && (checks.Success? ==> r == Success(RecordId(UsersTable, old(db.nextKey))))
    ensures r.Failure? ==> db.users == old(db.users) && db.identifiers == old(db.identifiers) && db.nextKey == old(db.nextKey)
    ensures r.Success? ==> db.nextKey == old(db.nextKey) + 2
    ensures r.Success? ==>
      var iid := RecordId(IdentifierTable, old(db.nextKey) + 1);
      var hash := hasher.hash(form.password, salt).value;
      && r.value !in old(db.users) && iid !in old(db.identifiers)
      && db.users == old(db.users)[r.value := NewUser(form, hash, r.value, db.defaultRole, now)]
      && db.identifiers == old(db.identifiers)[iid := NewIdentifier(form, r.value, iid, now)]
    ensures IdentifiersUnique(old(db.identifiers)) ==> IdentifiersUnique(db.identifiers)
    ensures IdentifiersOwned(old(db.identifiers), old(db.users)) ==> IdentifiersOwned(db.identifiers, db.users)
    ensures r.Success? && Sound(hasher) ==> Authenticate(db.users, db.identifiers, AsLogin(form), hasher) == Success(r.value)
  {
    var checks := RegistrationChecks(db.identifiers, form, isEmail, hasher, salt, committed);
    if checks.Failure? {
      return Failure(checks.error);
    }
    var uid := RecordId(UsersTable, db.nextKey);
    var iid := RecordId(IdentifierTable, db.nextKey + 1);
    if IdentifiersUnique(db.identifiers) {
      InsertKeepsUnique(db.identifiers, iid, form.identifier, uid, now);
    }
    if IdentifiersOwned(db.identifiers, db.users) {
      InsertKeepsOwned(db.identifiers, db.users, iid, NewIdentifier(form, uid, iid, now), uid,
                       NewUser(form, checks.value, uid, db.defaultRole, now));
    }
    var n := db.nextKey;
    UsersStillWellFormed(db.users, UsersTable, n, n + 2);
    UserInsertWellFormed(db.users, UsersTable, n + 2, uid, NewUser(form, checks.value, uid, db.defaultRole, now));
    UsersStillWellFormed(db.user, UserTable, n, n + 2);
    IdentifiersStillWellFormed(db.identifiers, n, n + 2, iid, NewIdentifier(form, uid, iid, now));
    SessionsStillWellFormed(db.sessions, n, n + 2);
    if Sound(hasher) {
      RegisterThenAuthenticate(db.users, db.identifiers, form, hasher, salt, uid, iid, db.defaultRole, now);
    }
    db.users := db.users[uid := NewUser(form, checks.value, uid, db.defaultRole, now)];
    db.identifiers := db.identifiers[iid := NewIdentifier(form, uid, iid, now)];
    db.nextKey := db.nextKey + 2;
    return Success(uid);
  }

  // ---------------------------------------------------------------- authentication

  /**
   * `authenticate` reading owners from `userTable`: the identifier row for the tag and value
   * (several rows cannot be taken as one), its owner by id, the stored hash parsed, the
   * password verified; the owner's id on success.
   */
  function AuthenticateIn(userTable: map<RecordId, User>, identifiers: map<RecordId, IdentifierRecord>,
                          form: LoginFormData, hasher: PasswordHasher): (r: Result<RecordId, AuthError>)
    ensures RowsFor(identifiers, form.identifier) == {} ==> r == Failure(AuthError.UserNotFound)
    ensures forall iid :: RowsFor(identifiers, form.identifier) == {iid} && identifiers[iid].user_id !in userTable ==>
      r == Failure(AuthError.UserNotFound)
    ensures forall iid :: RowsFor(identifiers, form.identifier) == {iid} && identifiers[iid].user_id in userTable ==>
      var stored := userTable[identifiers[iid].user_id].password_hash;
      r == if hasher.parse(stored).Failure? then Failure(AuthError.PasswordHashError(hasher.parse(stored).error))
           else if hasher.verify(form.password, stored).Failure? then
             Failure(AuthError.PasswordVerificationError(hasher.verify(form.password, stored).error))
           else Success(userTable[identifiers[iid].user_id].id)
    ensures |RowsFor(identifiers, form.identifier)| > 1 ==> r == Failure(AuthError.DatabaseError)
  {
    var rows := RowsFor(identifiers, form.identifier);
    if |rows| == 0 then Failure(AuthError.UserNotFound)
    else if |rows| > 1 then Failure(AuthError.DatabaseError)
    else
      var owner := identifiers[TheOnly(rows)].user_id;
      if owner !in userTable then Failure(AuthError.UserNotFound)
      else
        var user := userTable[owner];
        match hasher.parse(user.password_hash)
        case Failure(e) => Failure(AuthError.PasswordHashError(e))
        case Success(_) =>
          match hasher.verify(form.password, user.password_hash)
          case Failure(e) => Failure(AuthError.PasswordVerificationError(e))
          case Success(_) => Success(user.id)
  }

  /** `authenticate` as written: owners are read from table `user`. */
  function AuthenticateAsWritten(userTable: map<RecordId, User>, identifiers: map<RecordId, IdentifierRecord>,
                                 form: LoginFormData, hasher: PasswordHasher): (r: Result<RecordId, AuthError>)
    ensures RowsFor(identifiers, form.identifier) == {} ==> r == Failure(AuthError.UserNotFound)
    ensures (forall iid | iid in identifiers :: identifiers[iid].user_id !in userTable) ==> r.Failure?
  {
    AuthenticateIn(userTable, identifiers, form, hasher)
  }

  /** `authenticate` reading owners from `users`, the table registration writes. */
  function Authenticate(users: map<RecordId, User>, identifiers: map<RecordId, IdentifierRecord>,
                        form: LoginFormData, hasher: PasswordHasher): (r: Result<RecordId, AuthError>)
    ensures RowsFor(identifiers, form.identifier) == {} ==> r == Failure(AuthError.UserNotFound)
  {
    AuthenticateIn(users, identifiers, form, hasher)
  }

  /** A successful login names the owner of the identifier row, and the password verified against that owner's hash. */
  lemma AuthenticateSound(users: map<RecordId, User>, identifiers: map<RecordId, IdentifierRecord>,
                          form: LoginFormData, hasher: PasswordHasher)
    ensures Authenticate(users, identifiers, form, hasher).Success? ==>
      exists iid :: iid in identifiers && RowsFor(identifiers, form.identifier) == {iid}
        && identifiers[iid].user_id in users
        && users[identifiers[iid].user_id].id == Authenticate(users, identifiers, form, hasher).value
        && hasher.verify(form.password, users[identifiers[iid].user_id].password_hash).Success?
  {
    var rows := RowsFor(identifiers, form.identifier);
    if Authenticate(users, identifiers, form, hasher).Success? {
      assert |rows| == 1;
      var iid := TheOnly(rows);
      assert iid in identifiers;
    }
  }

  /**
   * The tables registration leaves behind let the same credentials in, and yield the new
   * user's id, once owners are read from `users`.
   */
  lemma RegisterThenAuthenticate(users: map<RecordId, User>, identifiers: map<RecordId, IdentifierRecord>,
                                 form: RegistrationFormData, hasher: PasswordHasher, salt: string,
                                 uid: RecordId, iid: RecordId, role: string, now: Datetime)
    requires Sound(hasher) && hasher.hash(form.password, salt).Success?
    requires RowsFor(identifiers, form.identifier) == {}
    requires iid !in identifiers
    ensures Authenticate(users[uid := StoredUser(CreateUser(form.name, hasher.hash(form.password, salt).value), uid, role, now)],
                         identifiers[iid := StoredIdentifier(CreateUserIdentifier(form.identifier, uid), iid, now)],
                         AsLogin(form), hasher) == Success(uid)
  {
    var ids := identifiers[iid := StoredIdentifier(CreateUserIdentifier(form.identifier, uid), iid, now)];
    assert RowsFor(ids, form.identifier) == {iid} by {
      forall x | x in RowsFor(ids, form.identifier) ensures x == iid {
      }
    }
  }

  /**
   * As written, authentication after registration finds the identifier but looks for its
   * owner in table `user`, where a `users` id never occurs: the new user is not found.
   */
  lemma RegisterThenAuthenticateAsWritten(userTable: map<RecordId, User>, nextKey: int,
                                          identifiers: map<RecordId, IdentifierRecord>,
                                          form: RegistrationFormData, hasher: PasswordHasher,
                                          uid: RecordId, iid: RecordId, now: Datetime)
    requires UsersWellFormed(userTable, UserTable, nextKey)
    requires uid.tb == UsersTable
    requires RowsFor(identifiers, form.identifier) == {}
    requires iid !in identifiers
    ensures AuthenticateAsWritten(userTable,
                                  identifiers[iid := StoredIdentifier(CreateUserIdentifier(form.identifier, uid), iid, now)],
                                  AsLogin(form), hasher) == Failure(AuthError.UserNotFound)
  {
    var ids := identifiers[iid := StoredIdentifier(CreateUserIdentifier(form.identifier, uid), iid, now)];
    assert RowsFor(ids, form.identifier) == {iid} by {
      forall x | x in RowsFor(ids, form.identifier) ensures x == iid {
      }
    }
    assert uid !in userTable;
  }

  /** A password that does not verify against the stored hash is refused as a verification failure. */
  lemma WrongPasswordRefused(users: map<RecordId, User>, identifiers: map<RecordId, IdentifierRecord>,
                             form: LoginFormData, hasher: PasswordHasher, iid: RecordId)
    requires RowsFor(identifiers, form.identifier) == {iid}
    requires identifiers[iid].user_id in users
    requires hasher.parse(users[identifiers[iid].user_id].password_hash).Success?
    requires hasher.verify(form.password, users[identifiers[iid].user_id].password_hash).Failure?
    ensures Authenticate(users, identifiers, form, hasher).Failure?
    ensures Authenticate(users, identifiers, form, hasher).error.PasswordVerificationError?
  {
  }
}
