/** The older registration form: an identifier and a password, and its own uniqueness check. */
module RegistrationLegacy {
  import opened Wrappers
  import opened Text
  import opened Records
  import opened Errors
  import opened Store
  import UserModels
  import AuthForms

  /** The older identifier enum; externally tagged, with the same rules as the newer one. */
  datatype UserIdentifier = Email(value: string) | Mobile(value: string)

  datatype FormData = FormData(identifier: UserIdentifier, password: string)

  predicate IdentifierValid(i: UserIdentifier, isEmail: string -> bool) {
    match i
    case Email(s) => isEmail(s)
    case Mobile(s) => UserModels.IsValidMobile(s)
  }

  predicate FormDataValid(form: FormData, isEmail: string -> bool) {
    IdentifierValid(form.identifier, isEmail) && Utf8Len(form.password) >= 8
  }

  /** `FormData::validate`: identifier first, then the password length. */
  function Validate(form: FormData, isEmail: string -> bool): (report: Report)
    ensures report == [] <==> FormDataValid(form, isEmail)
    ensures |report| <= 2
    ensures forall k :: 0 <= k < |report| ==> report[k].0 != NameField
  {
    var ident := match form.identifier
      case Email(s) => if isEmail(s) then [] else [(IdentifierField, InvalidEmail)]
      case Mobile(s) => if UserModels.IsValidMobile(s) then [] else [(IdentifierField, PatternMismatch)];
    var pass := if Utf8Len(form.password) < 8 then [(PasswordField, TooShort(8))] else [];
    ident + pass
  }

  /** The corresponding identifier of the newer model. */
  function Upgrade(i: UserIdentifier): (j: UserModels.Identifier)
    ensures j.value == i.value && (j.Email? <==> i.Email?)
  {
    match i
    case Email(s) => UserModels.Email(s)
    case Mobile(s) => UserModels.Mobile(s)
  }

  /** The older form's rules are exactly the newer login form's. */
  lemma ValidateAgreesWithLogin(form: FormData, isEmail: string -> bool)
    ensures Validate(form, isEmail) == AuthForms.ValidateLogin(AuthForms.LoginFormData(Upgrade(form.identifier), form.password), isEmail)
  {
  }

  /** The column name and value the older check looks for. */
  function UniquenessKey(i: UserIdentifier): (key: (string, string))
    ensures key.1 == i.value
    ensures key.0 == AuthForms.UniquenessKey(Upgrade(i)).0
  {
    match i
    case Email(s) => ("email", s)
    case Mobile(s) => ("mobile", s)
  }

  /** `FormData::validate_uniqueness`: any matching row of table `user` is the error `<field> already exists`. */
  function ValidateUniqueness(userTable: map<RecordId, UserModels.User>, form: FormData): (r: Result<(), string>)
    ensures r.Failure? <==> RowsWhere(userTable, UniquenessKey(form.identifier).0, form.identifier.value) != {}
    ensures r.Failure? ==> r.error == UniquenessKey(form.identifier).0 + " already exists"
  {
    var (field, value) := UniquenessKey(form.identifier);
    if RowsWhere(userTable, field, value) != {} then Failure(field + " already exists") else Success(())
  }

  /** Like the newer check as written, it queries columns user records never have, so it never rejects. */
  lemma ValidateUniquenessNeverRejects(userTable: map<RecordId, UserModels.User>, form: FormData)
    ensures ValidateUniqueness(userTable, form) == Success(())
  {
    NoRowsOnIdentifierColumns(userTable, UniquenessKey(form.identifier).0, form.identifier.value);
  }
}
