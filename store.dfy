/** The document store, as one in-memory map per table. */
module Store {
  import opened Wrappers
  import opened Records
  import opened UserModels
  import opened SessionModels

  /** Every key of a user table names that table, is the record's own id and was issued. */
  predicate UsersWellFormed(m: map<RecordId, User>, tb: string, nextKey: int) {
    forall id | id in m :: id.tb == tb && m[id].id == id && id.key < nextKey
  }

  predicate IdentifiersWellFormed(m: map<RecordId, IdentifierRecord>, nextKey: int) {
    forall id | id in m :: id.tb == IdentifierTable && m[id].id == id && id.key < nextKey
  }

  predicate SessionsWellFormed(m: map<RecordId, Session>, nextKey: int) {
    forall id | id in m :: id.tb == SessionsTable && m[id].id == id && id.key < nextKey
  }

  /** Issuing more keys keeps a table well formed, and so does storing a record under its own fresh-enough id. */
  lemma UsersStillWellFormed(m: map<RecordId, User>, tb: string, n: int, n': int)
    requires UsersWellFormed(m, tb, n) && n <= n'
    ensures UsersWellFormed(m, tb, n')
  {
  }

  lemma UserInsertWellFormed(m: map<RecordId, User>, tb: string, n: int, id: RecordId, u: User)
    requires UsersWellFormed(m, tb, n)
    requires id.tb == tb && u.id == id && id.key < n
    ensures UsersWellFormed(m[id := u], tb, n)
  {
  }

  lemma IdentifiersStillWellFormed(m: map<RecordId, IdentifierRecord>, n: int, n': int, id: RecordId, r: IdentifierRecord)
    requires IdentifiersWellFormed(m, n) && n <= n'
    requires id.tb == IdentifierTable && r.id == id && id.key < n'
    ensures IdentifiersWellFormed(m, n') && IdentifiersWellFormed(m[id := r], n')
  {
  }

  lemma SessionsStillWellFormed(m: map<RecordId, Session>, n: int, n': int)
    requires SessionsWellFormed(m, n) && n <= n'
    ensures SessionsWellFormed(m, n')
  {
  }

  /** `db.select(id)` read as a `User`: the id's table decides which map is consulted. */
  function SelectUser(users: map<RecordId, User>, userTable: map<RecordId, User>, id: RecordId): (r: Option<User>)
    ensures r.Some? ==> (id in users && r.value == users[id]) || (id in userTable && r.value == userTable[id])
    ensures id.tb == UsersTable ==> r == (if id in users then Some(users[id]) else None)
  {
    if id.tb == UsersTable then (if id in users then Some(users[id]) else None)
    else if id.tb == UserTable then (if id in userTable then Some(userTable[id]) else None)
    else None
  }

  /** The value of a named string column of a user record; `None` for a column the record does not have. */
  function UserColumn(u: User, column: string): Option<string> {
    if column == "display_name" then Some(u.display_name)
    else if column == "password_hash" then Some(u.password_hash)
    else if column == "role" then Some(u.role)
    else None
  }

  /** `SELECT * FROM <table> WHERE <column> = $value`. */
  function RowsWhere(table: map<RecordId, User>, column: string, value: string): set<RecordId> {
    set id | id in table && UserColumn(table[id], column) == Some(value)
  }

  /** A user record has no `email` or `mobile` column, so no row ever matches on them. */
  lemma NoRowsOnIdentifierColumns(table: map<RecordId, User>, column: string, value: string)
    requires column == "email" || column == "mobile"
    ensures RowsWhere(table, column, value) == {}
  {
  }

  /** `take(0)` of a result that holds exactly one row: that row. */
  function TheOnly<T>(s: set<T>): (x: T)
    requires |s| == 1
    ensures s == {x}
  {
    var x :| x in s;
    assert s == {x} by { assert |s - {x}| == 0; }
    x
  }

  /** The store: one map per table, and the counter that issues fresh keys. */
  class Database {
    /** Table `users`. */
    var users: map<RecordId, User>
    /** Table `user`. */
    var user: map<RecordId, User>
    /** Table `user_identifier`. */
    var identifiers: map<RecordId, IdentifierRecord>
    /** Table `sessions`. */
    var sessions: map<RecordId, Session>
    var nextKey: int
    /** The schema's default for `role`, filled in on user creation. */
    const defaultRole: string

    ghost predicate Valid()
      reads this
    {
      && UsersWellFormed(users, UsersTable, nextKey)
      && UsersWellFormed(user, UserTable, nextKey)
      && IdentifiersWellFormed(identifiers, nextKey)
      && SessionsWellFormed(sessions, nextKey)
    }

    constructor (role: string)
      ensures Valid() && defaultRole == role
      ensures users == map[] && user == map[] && identifiers == map[] && sessions == map[]
    {
      users, user, identifiers, sessions := map[], map[], map[], map[];
      nextKey := 0;
      defaultRole := role;
    }
  }
}
