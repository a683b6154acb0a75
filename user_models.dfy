/** The user records and the email-or-mobile identifier. */
module UserModels {
  import opened Wrappers
  import opened Text
  import opened Records

  /** `Identifier`: a closed union, serialised with an explicit tag. */
  datatype Identifier = Email(value: string) | Mobile(value: string)

  const EmailTag := "email"
  const MobileTag := "mobile"

  /**
   * The mobile pattern `^[6-9][0-9]{9}$`: exactly ten ASCII digits, the first 6 to 9.
   * (The regex is anchored at both ends of the text.)
   */
  predicate IsValidMobile(s: string) {
    |s| == 10 && '6' <= s[0] <= '9' && forall i :: 1 <= i < |s| ==> IsAsciiDigit(s[i])
  }

  /** Garde's `dive` into the identifier: `#[garde(email)]` on Email, the pattern on Mobile. */
  predicate IsValidIdentifier(i: Identifier, isEmail: string -> bool) {
    match i
    case Email(s) => isEmail(s)
    case Mobile(s) => IsValidMobile(s)
  }

  predicate AllDigits(s: string) { forall i :: 0 <= i < |s| ==> IsAsciiDigit(s[i]) }

  function Pow10(n: nat): (p: nat)
    ensures p >= 1
  {
    if n == 0 then 1 else 10 * Pow10(n - 1)
  }

  /** The number a string of decimal digits denotes, most significant digit first. */
  function DecimalValue(s: string): nat
    requires AllDigits(s)
  {
    if s == [] then 0 else (s[0] as int - '0' as int) * Pow10(|s| - 1) + DecimalValue(s[1..])
  }

  lemma {:induction false} DecimalValueBound(s: string)
    requires AllDigits(s)
    ensures DecimalValue(s) < Pow10(|s|)
  {
    if s != [] {
      DecimalValueBound(s[1..]);
      var d := s[0] as int - '0' as int;
      var p := Pow10(|s| - 1);
      assert d * p <= 9 * p;
    }
  }

  /**
   * A reference reading of the mobile pattern: a ten-digit numeral whose value is at
   * least 6 000 000 000.
   */
  lemma MobileAsNumber(s: string)
    ensures IsValidMobile(s) <==> |s| == 10 && AllDigits(s) && DecimalValue(s) >= 6_000_000_000
  {
    if |s| == 10 && AllDigits(s) {
      DecimalValueBound(s[1..]);
      assert Pow10(9) == 1_000_000_000;
      var d := s[0] as int - '0' as int;
      assert DecimalValue(s) == d * 1_000_000_000 + DecimalValue(s[1..]);
    }
  }

  /** The serialised form `{identifier_type, identifier_value}`. */
  datatype TaggedIdentifier = TaggedIdentifier(identifier_type: string, identifier_value: string)

  /** `#[serde(tag = "identifier_type", content = "identifier_value")]` with renames `email` / `mobile`. */
  function Serialize(i: Identifier): (t: TaggedIdentifier)
    ensures t.identifier_value == i.value
    ensures t.identifier_type == EmailTag <==> i.Email?
    ensures t.identifier_type == MobileTag <==> i.Mobile?
  {
    match i
    case Email(s) => TaggedIdentifier(EmailTag, s)
    case Mobile(s) => TaggedIdentifier(MobileTag, s)
  }

  /** Deserialisation: an unknown tag is an error. */
  function Deserialize(t: TaggedIdentifier): Option<Identifier> {
    if t.identifier_type == EmailTag then Some(Email(t.identifier_value))
    else if t.identifier_type == MobileTag then Some(Mobile(t.identifier_value))
    else None
  }

  lemma DeserializeSerialize(i: Identifier)
    ensures Deserialize(Serialize(i)) == Some(i)
  {
  }

  lemma SerializeDeserialize(t: TaggedIdentifier)
    ensures Deserialize(t).Some? ==> Serialize(Deserialize(t).value) == t
  {
  }

  /** Two identifiers serialise alike only when they are the same variant with the same string. */
  lemma SerializeInjective(a: Identifier, b: Identifier)
    requires Serialize(a) == Serialize(b)
    ensures a == b
  {
    DeserializeSerialize(a);
    DeserializeSerialize(b);
  }

  /**
   * The client-side classification of the login/registration input field: an input
   * containing `@` is an email, anything else a mobile number.
   */
  function ClassifyInput(input: string): (i: Identifier)
    ensures i.value == input
    ensures i.Email? <==> '@' in input
  {
    if '@' in input then Email(input) else Mobile(input)
  }

  lemma ValidMobileClassifiedAsMobile(s: string)
    requires IsValidMobile(s)
    ensures ClassifyInput(s) == Mobile(s)
  {
  }

  /** `CreateUser`: only the two columns registration sets. */
  datatype CreateUser = CreateUser(display_name: string, password_hash: string)

  /** `User` as stored. */
  datatype User = User(id: RecordId, created_at: Datetime, display_name: string,
                       password_hash: string, role: string, updated_at: Datetime)

  /** The record the store keeps for a `CreateUser`: it supplies the id, the role default and both timestamps. */
  function StoredUser(c: CreateUser, id: RecordId, defaultRole: string, now: Datetime): (u: User)
    ensures u.id == id && u.display_name == c.display_name && u.password_hash == c.password_hash
    ensures u.role == defaultRole && u.created_at == now && u.updated_at == now
  {
    User(id, now, c.display_name, c.password_hash, defaultRole, now)
  }

  /** `UpdateUser`: `None` fields are omitted from the merge; `updated_at` is always sent. */
  datatype UpdateUser = UpdateUser(display_name: Option<string>, role: Option<string>, updated_at: Datetime)

  /** A merge-update of a stored user with an `UpdateUser`. */
  function MergeUser(u: User, patch: UpdateUser): (r: User)
    ensures r.id == u.id && r.password_hash == u.password_hash && r.created_at == u.created_at
    ensures r.updated_at == patch.updated_at
    ensures r.display_name == if patch.display_name.Some? then patch.display_name.value else u.display_name
    ensures r.role == if patch.role.Some? then patch.role.value else u.role
  {
    u.(display_name := patch.display_name.GetOr(u.display_name),
       role := patch.role.GetOr(u.role),
       updated_at := patch.updated_at)
  }

  /** A patch that names no optional field only refreshes `updated_at`. */
  lemma MergeUserEmptyPatch(u: User, t: Datetime)
    ensures MergeUser(u, UpdateUser(None, None, t)) == u.(updated_at := t)
  {
  }

  /** `CreateUserIdentifier`: the identifier (flattened) beside the owner's id. */
  datatype CreateUserIdentifier = CreateUserIdentifier(identifier: Identifier, user_id: RecordId)

  /** `UserIdentifier` as read back. */
  datatype UserIdentifier = UserIdentifier(identifier: Identifier, user_id: RecordId,
                                           created_at: Datetime, updated_at: Datetime)

  /** A stored `user_identifier` row: the identifier's tag and value are flat columns. */
  datatype IdentifierRecord = IdentifierRecord(id: RecordId, identifier_type: string, identifier_value: string,
                                               user_id: RecordId, created_at: Datetime, updated_at: Datetime)

  /** `#[serde(flatten)]`: the row the store keeps for a `CreateUserIdentifier`. */
  function StoredIdentifier(c: CreateUserIdentifier, id: RecordId, now: Datetime): (r: IdentifierRecord)
    ensures TaggedIdentifier(r.identifier_type, r.identifier_value) == Serialize(c.identifier)
    ensures r.id == id && r.user_id == c.user_id && r.created_at == now && r.updated_at == now
  {
    var t := Serialize(c.identifier);
    IdentifierRecord(id, t.identifier_type, t.identifier_value, c.user_id, now, now)
  }

  /** Reading a row back as a `UserIdentifier`: the flat tag and value are deserialised. */
  function ReadIdentifier(r: IdentifierRecord): Option<UserIdentifier> {
    match Deserialize(TaggedIdentifier(r.identifier_type, r.identifier_value))
    case None => None
    case Some(i) => Some(UserIdentifier(i, r.user_id, r.created_at, r.updated_at))
  }

  /** Flattening and reading back preserve the identifier and its owner. */
  lemma StoredIdentifierReadsBack(c: CreateUserIdentifier, id: RecordId, now: Datetime)
    ensures ReadIdentifier(StoredIdentifier(c, id, now)) == Some(UserIdentifier(c.identifier, c.user_id, now, now))
  {
    DeserializeSerialize(c.identifier);
  }
}
