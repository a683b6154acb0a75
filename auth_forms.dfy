/**
 * The registration and login forms: garde's validation of them, the report it produces,
 * and the pre-registration uniqueness check.
 */
module AuthForms {
  import opened Wrappers
  import opened Text
  import opened Records
  import opened UserModels
  import opened Errors
  import opened Store

  datatype RegistrationFormData = RegistrationFormData(name: string, identifier: Identifier, password: string)

  datatype LoginFormData = LoginFormData(identifier: Identifier, password: string)

  // ---------------------------------------------------------------- the rules, stated directly

  /** `#[garde(length(min = 2, max = 100))]` on the name; garde counts bytes. */
  predicate NameAcceptable(name: string) { 2 <= Utf8Len(name) <= 100 }

  /** `#[garde(length(min = 8))]` on the password. */
  predicate PasswordAcceptable(password: string) { Utf8Len(password) >= 8 }

  predicate RegistrationValid(form: RegistrationFormData, isEmail: string -> bool) {
    NameAcceptable(form.name) && IsValidIdentifier(form.identifier, isEmail) && PasswordAcceptable(form.password)
  }

  predicate LoginValid(form: LoginFormData, isEmail: string -> bool) {
    IsValidIdentifier(form.identifier, isEmail) && PasswordAcceptable(form.password)
  }

  // ---------------------------------------------------------------- garde's report

  /** garde's `length` rule: below the minimum, or above the maximum when there is one. */
  function LengthRule(s: string, min: nat, max: Option<nat>): (vs: seq<Violation>)
    ensures vs == [] <==> min <= Utf8Len(s) && (max.Some? ==> Utf8Len(s) <= max.value)
    ensures |vs| <= 1
  {
    if Utf8Len(s) < min then [TooShort(min)]
    else if max.Some? && Utf8Len(s) > max.value then [TooLong(max.value)]
    else []
  }

  /** garde's `dive` into the identifier: the email rule or the mobile pattern. */
  function IdentifierRule(i: Identifier, isEmail: string -> bool): (vs: seq<Violation>)
    ensures vs == [] <==> IsValidIdentifier(i, isEmail)
    ensures |vs| <= 1
  {
    match i
    case Email(s) => if isEmail(s) then [] else [InvalidEmail]
    case Mobile(s) => if IsValidMobile(s) then [] else [PatternMismatch]
  }

  function Entries(field: FormField, vs: seq<Violation>): (r: Report)
    ensures |r| == |vs|
    ensures forall k :: 0 <= k < |r| ==> r[k] == (field, vs[k])
  {
    if vs == [] then [] else [(field, vs[0])] + Entries(field, vs[1..])
  }

  predicate Reports(report: Report, field: FormField) {
    exists k :: 0 <= k < |report| && report[k].0 == field
  }

  /** `RegistrationFormData::validate`: the violations, field by field in declaration order. */
  function ValidateRegistration(form: RegistrationFormData, isEmail: string -> bool): (report: Report)
    ensures report == [] <==> RegistrationValid(form, isEmail)
    ensures Reports(report, NameField) <==> !NameAcceptable(form.name)
    ensures Reports(report, IdentifierField) <==> !IsValidIdentifier(form.identifier, isEmail)
    ensures Reports(report, PasswordField) <==> !PasswordAcceptable(form.password)
    ensures |report| <= 3
  {
    var name := Entries(NameField, LengthRule(form.name, 2, Some(100)));
    var ident := Entries(IdentifierField, IdentifierRule(form.identifier, isEmail));
    var pass := Entries(PasswordField, LengthRule(form.password, 8, None));
    var report := name + ident + pass;
    assert Reports(report, NameField) ==> name != [] by {
      if Reports(report, NameField) {
        var k :| 0 <= k < |report| && report[k].0 == NameField;
        assert k < |name|;
      }
    }
    assert Reports(report, IdentifierField) ==> ident != [] by {
      if Reports(report, IdentifierField) {
        var k :| 0 <= k < |report| && report[k].0 == IdentifierField;
        assert |name| <= k < |name| + |ident|;
      }
    }
    assert Reports(report, PasswordField) ==> pass != [] by {
      if Reports(report, PasswordField) {
        var k :| 0 <= k < |report| && report[k].0 == PasswordField;
        assert |name| + |ident| <= k;
      }
    }
    assert name != [] ==> report[0].0 == NameField;
    assert ident != [] ==> report[|name|].0 == IdentifierField;
    assert pass != [] ==> report[|name| + |ident|].0 == PasswordField;
    report
  }

  /** `LoginFormData::validate`. */
  function ValidateLogin(form: LoginFormData, isEmail: string -> bool): (report: Report)
    ensures report == [] <==> LoginValid(form, isEmail)
    ensures Reports(report, IdentifierField) <==> !IsValidIdentifier(form.identifier, isEmail)
    ensures Reports(report, PasswordField) <==> !PasswordAcceptable(form.password)
    ensures !Reports(report, NameField)
    ensures |report| <= 2
  {
    var ident := Entries(IdentifierField, IdentifierRule(form.identifier, isEmail));
    var pass := Entries(PasswordField, LengthRule(form.password, 8, None));
    var report := ident + pass;
    assert Reports(report, IdentifierField) ==> ident != [] by {
      if Reports(report, IdentifierField) {
        var k :| 0 <= k < |report| && report[k].0 == IdentifierField;
        assert k < |ident|;
      }
    }
    assert Reports(report, PasswordField) ==> pass != [] by {
      if Reports(report, PasswordField) {
        var k :| 0 <= k < |report| && report[k].0 == PasswordField;
        assert |ident| <= k;
      }
    }
    assert ident != [] ==> report[0].0 == IdentifierField;
    assert pass != [] ==> report[|ident|].0 == PasswordField;
    report
  }

  /** The login form carried by a registration form. */
  function AsLogin(form: RegistrationFormData): LoginFormData {
    LoginFormData(form.identifier, form.password)
  }

  /** A form that registers can also log in: registration's rules include login's. */
  lemma RegistrationValidImpliesLoginValid(form: RegistrationFormData, isEmail: string -> bool)
    requires ValidateRegistration(form, isEmail) == []
    ensures ValidateLogin(AsLogin(form), isEmail) == []
  {
  }

  /** A login-valid form with an acceptable name registers. */
  lemma LoginValidWithNameRegisters(form: RegistrationFormData, isEmail: string -> bool)
    requires ValidateLogin(AsLogin(form), isEmail) == []
    requires NameAcceptable(form.name)
    ensures ValidateRegistration(form, isEmail) == []
  {
  }

  // ---------------------------------------------------------------- the report as text

  function FieldName(f: FormField): string {
    match f
    case NameField => "name"
    case IdentifierField => "identifier"
    case PasswordField => "password"
  }

  /** garde's message for each rule. */
  function ViolationText(v: Violation): string {
    match v
    case TooShort(n) => "length is lower than " + NatToString(n)
    case TooLong(n) => "length is greater than " + NatToString(n)
    case PatternMismatch => "does not match pattern /^[6-9][0-9]{9}$/"
    case InvalidEmail => "not a valid email"
  }

  /** One line of the 422 body: `field, message`. */
  function ReportLine(entry: (FormField, Violation)): string {
    FieldName(entry.0) + ", " + ViolationText(entry.1)
  }

  function ReportLines(report: Report): (lines: seq<string>)
    ensures |lines| == |report|
    ensures forall k :: 0 <= k < |report| ==> lines[k] == ReportLine(report[k])
  {
    if report == [] then [] else [ReportLine(report[0])] + ReportLines(report[1..])
  }

  /** The lines joined by newlines, as the register endpoint sends them. */
  function ReportText(report: Report): string {
    Join(ReportLines(report), "\n")
  }

  lemma NatToStringHasNoNewline(n: nat)
    ensures '\n' !in NatToString(n)
  {
  }

  lemma ReportLineHasNoNewline(entry: (FormField, Violation))
    ensures '\n' !in ReportLine(entry)
  {
    var name := FieldName(entry.0) + ", ";
    var text := ViolationText(entry.1);
    assert '\n' !in name;
    assert '\n' !in text by {
      match entry.1
      case TooShort(n) =>
        NatToStringHasNoNewline(n);
        assert text == "length is lower than " + NatToString(n);
      case TooLong(n) =>
        NatToStringHasNoNewline(n);
        assert text == "length is greater than " + NatToString(n);
      case PatternMismatch =>
      case InvalidEmail =>
    }
    assert ReportLine(entry) == name + text;
  }

  /** Each violation is one line of the 422 body, in report order: splitting on newlines recovers them. */
  lemma ReportTextLines(report: Report)
    requires report != []
    ensures Split(ReportText(report), '\n') == ReportLines(report)
    ensures |Split(ReportText(report), '\n')| == |report|
  {
    var lines := ReportLines(report);
    forall k | 0 <= k < |lines| ensures '\n' !in lines[k] {
      ReportLineHasNoNewline(report[k]);
    }
    SplitJoin(lines, '\n');
  }

  // ---------------------------------------------------------------- uniqueness

  /** The column name and value `validate_uniqueness` looks for. */
  function UniquenessKey(i: Identifier): (key: (string, string))
    ensures key.1 == i.value
    ensures key.0 == (if i.Email? then "email" else "mobile")
    ensures key.0 == Serialize(i).identifier_type
  {
    match i
    case Email(s) => ("email", s)
    case Mobile(s) => ("mobile", s)
  }

  /**
   * `validate_uniqueness` as written: rows of the `user` table whose `email`/`mobile` column
   * equals the value; any row is a conflict.
   */
  function ValidateUniquenessAsWritten(userTable: map<RecordId, User>, form: RegistrationFormData)
    : (r: Result<(), RegistrationError>)
    ensures r.Failure? <==> RowsWhere(userTable, UniquenessKey(form.identifier).0, form.identifier.value) != {}
    ensures r.Failure? ==> r.error == RegistrationError.NotUniqueError(UniquenessKey(form.identifier).0)
  {
    var (field, value) := UniquenessKey(form.identifier);
    if RowsWhere(userTable, field, value) != {} then Failure(RegistrationError.NotUniqueError(field)) else Success(())
  }

  /** As written the check never rejects: user records have no `email` or `mobile` column. */
  lemma UniquenessAsWrittenNeverRejects(userTable: map<RecordId, User>, form: RegistrationFormData)
    ensures ValidateUniquenessAsWritten(userTable, form) == Success(())
  {
    NoRowsOnIdentifierColumns(userTable, UniquenessKey(form.identifier).0, form.identifier.value);
  }

  /** The identifier rows holding `i`: same tag and same value. */
  function RowsFor(identifiers: map<RecordId, IdentifierRecord>, i: Identifier): (ids: set<RecordId>)
    ensures forall id :: id in ids <==>
      id in identifiers && TaggedIdentifier(identifiers[id].identifier_type, identifiers[id].identifier_value) == Serialize(i)
  {
    set id | id in identifiers && identifiers[id].identifier_type == Serialize(i).identifier_type
                               && identifiers[id].identifier_value == i.value
  }

  /** `validate_uniqueness` asking the table that does hold identifiers, by tag and value. */
  function ValidateUniqueness(identifiers: map<RecordId, IdentifierRecord>, form: RegistrationFormData)
    : (r: Result<(), RegistrationError>)
    ensures r.Failure? <==> RowsFor(identifiers, form.identifier) != {}
    ensures r.Failure? ==> r.error == RegistrationError.NotUniqueError(UniquenessKey(form.identifier).0)
  {
    if RowsFor(identifiers, form.identifier) != {} then Failure(RegistrationError.NotUniqueError(UniquenessKey(form.identifier).0))
    else Success(())
  }

  /** An identifier that is already registered is rejected by the corrected check, but not as written. */
  lemma RegisteredIdentifierRejected(identifiers: map<RecordId, IdentifierRecord>, userTable: map<RecordId, User>,
                                     form: RegistrationFormData, id: RecordId)
    requires id in identifiers
    requires ReadIdentifier(identifiers[id]).Some? && ReadIdentifier(identifiers[id]).value.identifier == form.identifier
    ensures ValidateUniqueness(identifiers, form) == Failure(RegistrationError.NotUniqueError(UniquenessKey(form.identifier).0))
    ensures ValidateUniquenessAsWritten(userTable, form) == Success(())
  {
    var rec := identifiers[id];
    var t := TaggedIdentifier(rec.identifier_type, rec.identifier_value);
    SerializeDeserialize(t);
    assert id in RowsFor(identifiers, form.identifier);
    UniquenessAsWrittenNeverRejects(userTable, form);
  }
}
