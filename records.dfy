/** Record identifiers, timestamps and the scalar types records carry. */
module Records {

  /** An instant, in whole seconds (`Datetime` / `chrono::DateTime<Utc>`). */
  type Datetime = int

  /**
   * A Rust `f64`, kept as its IEEE 754 binary64 bit pattern: the model only stores and
   * copies such values, never computes with them.
   */
  type F64 = bv64

  /** A Rust `u32`. */
  type U32 = n: int | 0 <= n < 0x1_0000_0000

  /** A record id `table:key`; the table is part of the id. */
  datatype RecordId = RecordId(tb: string, key: int)

  /** Table written by registration (`CREATE ONLY users`). */
  const UsersTable := "users"
  /** Table read by authentication and by the uniqueness query (`FROM user`). */
  const UserTable := "user"
  const IdentifierTable := "user_identifier"
  const SessionsTable := "sessions"
  const MosquesTable := "mosques"
}
