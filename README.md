# Merzeh authentication, sessions, forms and mosque import — a Dafny model

Merzeh is a web application (Leptos on Actix, SurrealDB as the store) for finding mosques.
Its core has five parts:

- **Registration and login.** A user registers with a display name, an email address or an
  Indian mobile number (the *identifier*) and a password. The form is validated with garde.
  The identifier is checked for uniqueness. The password is hashed with Argon2. The user record
  and its identifier record are written in one transaction. Logging in looks up the identifier,
  loads its owner and verifies the password.
- **Sessions.** Both server functions then open a session. A session is a random 32-byte token,
  base64url-encoded without padding (section 5 of RFC 4648), stored in the `sessions` table with
  an expiry one hour ahead. The token is handed to the browser as a `__Host-` cookie. Helpers
  look a session up by its token, delete it, rotate its token, extend its expiry and sweep
  expired sessions.
- **Records.** `CreateSession`/`Session`/`UpdateSession`, `CreateUser`/`User`/`UpdateUser`, and
  the `Identifier` enum with its tagged serialisation.
- **Form configuration.** `InputConfig` is a builder for the HTML inputs the pages render.
- **Mosque import.** The step that turns Overpass API elements into `Mosque` records.

## Layout

| file | module | models |
|---|---|---|
| `wrappers.dfy` | `Wrappers` | `Option`, `Result` |
| `text.dfy` | `Text` | ASCII classes, UTF-8 byte length, decimal rendering, `Join`/`Split` and their round trips |
| `records.dfy` | `Records` | record ids, table names, `Datetime`, `f64` and `u32` |
| `token_generator.dfy` | `TokenGenerator` | `generate_token` and the unpadded base64url codec |
| `user_models.dfy` | `UserModels` | `src/models/user.rs` |
| `session_models.dfy` | `SessionModels` | `src/models/session.rs` |
| `errors.dfy` | `Errors` | `SessionError`, `AuthError`, `RegistrationError`, garde's report |
| `store.dfy` | `Store` | the store: one map per table, a key counter, queries on user records |
| `http.dfy` | `Http` | `ResponseOptions`: the status and the header map |
| `auth_forms.dfy` | `AuthForms` | `src/models/auth.rs` |
| `registration_legacy.dfy` | `RegistrationLegacy` | `src/models/registration.rs` |
| `session.dfy` | `SessionManager` | `src/auth/session.rs` |
| `custom_auth.dfy` | `CustomAuth` | `src/auth/custom_auth.rs` |
| `server_auth.dfy` | `ServerAuth` | `src/server_functions/auth.rs` |
| `form.dfy` | `Form` | `src/models/form.rs` |
| `mosque.dfy` | `Mosques` | `src/server_functions/mosque.rs` (element conversion) and its records |

**State.** The store is a class, `Store.Database`. It holds one map per table: `users`, `user`,
`identifiers` for `user_identifier`, and `sessions`. It also holds the counter that issues fresh
record keys. The operations that write to the store are methods that modify it. Their contracts
state the whole new state of every table in terms of pure functions (`WithoutToken`, `MergeAt`,
`Sweep`, `NewUser`, …), and the properties are proved about those functions. `ResponseOptions`
is a class as well: the server functions set its status and insert the `Set-Cookie` header.

**Parameters.** Anything the source obtains from outside is a parameter:
- the current time (`now`, in seconds);
- the random token bytes (`random`) and the salt;
- the Argon2 hasher (`PasswordHasher`, three abstract functions);
- the email rule (`isEmail`);
- whether the store accepts the two writes whose failure the code branches on: the session
  insert (`written`) and the registration transaction (`committed`).

**Corrected and as-written behaviour.** The model keeps both versions of four defects listed
under "## Findings". The composed flows (`CustomAuth.RegisterUser`, `ServerAuth.Register`,
`ServerAuth.Login`) use the corrected versions.

## Model

| member | source | states |
|---|---|---|
| `TokenGenerator.AlphabetValue` | src/utils/token_generator.rs:8 | a character decodes to a sextet exactly when it is in the base64url alphabet, and that sextet encodes back to it |
| `TokenGenerator.AlphabetRoundTrip` | src/utils/token_generator.rs:8 | every sextet's character decodes back to the sextet |
| `TokenGenerator.Encode` | src/utils/token_generator.rs:8 | unpadded base64url output has length ⌈4n/3⌉ and only URL-safe characters |
| `TokenGenerator.DecodeEncode` | src/utils/token_generator.rs:8 | decoding the encoding of any byte string gives the bytes back |
| `TokenGenerator.EncodeInjective` | src/utils/token_generator.rs:8 | different byte strings never encode to the same text |
| `TokenGenerator.GenerateToken` | src/utils/token_generator.rs:4-9 | a token from 32 random bytes has 43 URL-safe characters, no `=` padding, and decodes to those bytes |
| `TokenGenerator.GenerateTokenInjective` | src/utils/token_generator.rs:4-9 | different random bytes give different tokens |
| `UserModels.MobileAsNumber` | src/models/user.rs:43 | `^[6-9][0-9]{9}$` holds exactly for ten digits whose value is at least 6 000 000 000 |
| `UserModels.Serialize` | src/models/user.rs:37-44 | the tag is `email` exactly for `Email` and `mobile` exactly for `Mobile`; the content is the string |
| `UserModels.DeserializeSerialize` | src/models/user.rs:37-44 | deserialising a serialised identifier gives it back |
| `UserModels.SerializeDeserialize` | src/models/user.rs:37-44 | a tagged value that deserialises is the serialisation of the result |
| `UserModels.SerializeInjective` | src/models/user.rs:37-44 | two identifiers with the same serialisation are equal |
| `UserModels.ClassifyInput` | src/pages/auth.rs:39-43 | the page's input becomes an `Email` exactly when it contains `@`; the string is kept |
| `UserModels.ValidMobileClassifiedAsMobile` | src/pages/auth.rs:39-43 | a well-formed mobile number typed into the page is classified as a mobile |
| `UserModels.StoredUser` | src/models/user.rs:5-19 | the stored user keeps the name and hash, gets the id, the default role and both timestamps |
| `UserModels.MergeUser` | src/models/user.rs:21-28 | a merge changes only the fields the patch carries, always refreshes `updated_at`, keeps id, hash and `created_at` |
| `UserModels.MergeUserEmptyPatch` | src/models/user.rs:21-28 | a patch without optional fields only refreshes `updated_at` |
| `UserModels.StoredIdentifier` | src/models/user.rs:30-35 | the flattened row carries the serialised tag and value, the owner and the timestamps |
| `UserModels.StoredIdentifierReadsBack` | src/models/user.rs:46-53 | reading a stored identifier row back gives the identifier and owner that were written |
| `SessionModels.StoredSession` | src/models/session.rs:5-19 | the stored session keeps owner, token and expiry, and gets the id and `created_at` |
| `SessionModels.Merge` | src/models/session.rs:21-27 | a merge replaces only the fields the patch carries; id, owner and `created_at` are kept |
| `SessionModels.MergeThen` | src/models/session.rs:21-27 | two merges in a row equal one merge of the combined patch |
| `SessionModels.MergeIdempotent` | src/models/session.rs:21-27 | merging a patch twice equals merging it once; the empty patch changes nothing |
| `Errors.RegistrationErrorText` | src/errors/registration.rs:11-12 | a not-unique error displays as `<field> already registered` |
| `Store.SelectUser` | src/auth/session.rs:61 | selecting by id reads the table the id names; an id of `users` finds exactly the `users` record |
| `Store.NoRowsOnIdentifierColumns` | src/models/user.rs:11-19 | a user record has no `email` or `mobile` column, so a query on either matches nothing |
| `AuthForms.LengthRule` | src/models/auth.rs:14 | garde's length rule passes exactly when the byte length is within the bounds; at most one violation |
| `AuthForms.IdentifierRule` | src/models/user.rs:37-44 | the identifier passes exactly when an email satisfies the email rule or a mobile matches the pattern |
| `AuthForms.ValidateRegistration` | src/models/auth.rs:12-20 | the report is empty exactly when all three rules hold; each field is reported exactly when its rule fails |
| `AuthForms.ValidateLogin` | src/models/auth.rs:22-28 | the report is empty exactly when identifier and password rules hold; a field is reported exactly when its rule fails |
| `AuthForms.RegistrationValidImpliesLoginValid` | src/models/auth.rs:12-28 | a form that passes registration's validation passes login's |
| `AuthForms.LoginValidWithNameRegisters` | src/models/auth.rs:12-28 | a login-valid form with an acceptable name passes registration's validation |
| `AuthForms.ReportLines` | src/server_functions/auth.rs:33-36 | one `field, message` line per violation, in report order |
| `AuthForms.ReportTextLines` | src/server_functions/auth.rs:33-39 | splitting the 422 body on newlines gives back exactly one line per violation |
| `AuthForms.UniquenessKey` | src/models/auth.rs:35-38 | the column is `email` or `mobile` by variant, the same tag serialisation uses; the value is the identifier |
| `AuthForms.ValidateUniquenessAsWritten` | src/models/auth.rs:32-56 | as written: rejects exactly when a `user` record has the column equal to the value, with that field's not-unique error |
| `AuthForms.UniquenessAsWrittenNeverRejects` | src/models/auth.rs:40 | as written the uniqueness check accepts every form |
| `AuthForms.RowsFor` | src/auth/custom_auth.rs:80 | the identifier rows whose tag and value are the serialisation of the identifier |
| `AuthForms.ValidateUniqueness` | src/models/auth.rs:32-56 | corrected: rejects exactly when an identifier row holds the same identifier, with that field's not-unique error |
| `AuthForms.RegisteredIdentifierRejected` | src/models/auth.rs:32-56 | an identifier already stored is rejected by the corrected check and accepted as written |
| `RegistrationLegacy.Validate` | src/models/registration.rs:8-26 | the report is empty exactly when the identifier rule and the password length hold; it never names a name field |
| `RegistrationLegacy.Upgrade` | src/models/registration.rs:16-26 | the older identifier maps to the newer one with the same variant and string |
| `RegistrationLegacy.ValidateAgreesWithLogin` | src/models/registration.rs:8-26 | the older form's validation is exactly the newer login form's |
| `RegistrationLegacy.UniquenessKey` | src/models/registration.rs:30-33 | the column and value agree with the newer check's |
| `RegistrationLegacy.ValidateUniqueness` | src/models/registration.rs:29-51 | rejects exactly when a `user` record matches, with `<field> already exists` |
| `RegistrationLegacy.ValidateUniquenessNeverRejects` | src/models/registration.rs:35 | the older check accepts every form too |
| `SessionManager.ValidateSessionToken` | src/auth/session.rs:200-217 | succeeds exactly for a non-empty token of 40 to 50 bytes made only of letters, digits, `-` and `_`; fails only with `InvalidToken` |
| `SessionManager.GeneratedTokenIsValid` | src/auth/session.rs:24 | every generated token passes the shape check |
| `SessionManager.MaxAgeText` | src/auth/session.rs:188 | `Max-Age` is rendered as 3600 |
| `SessionManager.SessionCookie` | src/auth/session.rs:185-189 | the cookie is `__Host-session=<token>` followed by Path=/, Secure, HttpOnly, SameSite=Lax and Max-Age=3600, separated by `;` |
| `SessionManager.CookiePiecesSeparatorFree` | src/auth/session.rs:185-189 | for a well-formed token no piece of the cookie contains `;` |
| `SessionManager.SessionCookiePieces` | src/auth/session.rs:185-189 | a well-formed token's cookie splits on `;` into exactly the name pair and the five attributes |
| `SessionManager.SessionCookieIsHostCookie` | src/auth/session.rs:185-189 | the cookie meets the `__Host-` prefix rules of section 4.1.3.2 of RFC 6265bis |
| `SessionManager.SessionCookieIsHeaderValue` | src/auth/session.rs:191-195 | a well-formed token's cookie is a legal header value, so building the header cannot fail |
| `SessionManager.SetSessionCookie` | src/auth/session.rs:179-198 | succeeds exactly for a legal header value, then sets `Set-Cookie` to the cookie; otherwise fails with the source's message and changes nothing |
| `SessionManager.TokenMatches` | src/auth/session.rs:49 | the sessions whose token equals the given one |
| `SessionManager.OwnerBySession` | src/auth/session.rs:43-71 | `InvalidToken` for a malformed token, `SessionNotFound` exactly when no session has it, and for the single match: expired, owner missing or the owner |
| `SessionManager.GetUserBySessionAsWritten` | src/auth/session.rs:43-71 | as written: a success comes only from a session whose expiry is already past |
| `SessionManager.GetUserBySession` | src/auth/session.rs:43-71 | corrected: a success comes only from a session whose expiry is not yet past |
| `SessionManager.FreshSessionRejectedAsWritten` | src/auth/session.rs:57-59 | as written a session is refused as expired at the moment it is created |
| `SessionManager.StaleSessionAcceptedAsWritten` | src/auth/session.rs:57-59 | as written a session past its expiry resolves to its owner |
| `SessionManager.SessionLifecycle` | src/auth/session.rs:21-71 | corrected: a new session resolves to its owner for one hour and is refused as expired after |
| `SessionManager.ShortTokenNeverLooksUp` | src/auth/session.rs:44 | a token under 40 bytes is refused as `InvalidToken` by both versions |
| `SessionManager.CreateSession` | src/auth/session.rs:21-41 | stores exactly one new session with a fresh key, the generated token and an expiry one hour ahead, and returns the token; a refused insert changes nothing |
| `SessionManager.WithoutToken` | src/auth/session.rs:78 | the table keeps exactly the sessions with another token, unchanged |
| `SessionManager.WithoutTokenIdempotent` | src/auth/session.rs:73-85 | deleting the same token twice equals deleting it once |
| `SessionManager.DeleteSession` | src/auth/session.rs:73-85 | returns the shape check's verdict; on success every session with the token is gone and nothing else changes |
| `SessionManager.MergeAt` | src/auth/session.rs:96-101 | the keys are unchanged, the addressed record is merged, every other record is unchanged |
| `SessionManager.ReadSession` | src/auth/session.rs:96-115 | reading the addressed record as a session: the session, nothing when no record has the id, a store error when the id names a record of another table |
| `SessionManager.UpdateSessionToken` | src/auth/session.rs:87-104 | a store error, with nothing changed, when the id names a record of another table; otherwise merges a fresh token into the addressed record without touching the expiry, and returns the token |
| `SessionManager.UpdateSessionExpiry` | src/auth/session.rs:106-133 | a store error for a record of another table, `SessionNotFound` if no record has the id; otherwise the stored expiry grows by one hour and the token stays |
| `SessionManager.UpdateSessionExpiryAndToken` | src/auth/session.rs:135-166 | a store error for a record of another table, `SessionNotFound` if no record has the id; otherwise a fresh token and the expiry one hour later, in one merge |
| `SessionManager.UserIdIsNotASession` | src/auth/session.rs:87-166 | an existing user's id, the id the source passes, names no session and reads back as a store error, so rotating or extending by it fails with `DatabaseError` |
| `SessionManager.Sweep` | src/auth/session.rs:168-177 | corrected: keeps exactly the sessions whose expiry is after now, unchanged |
| `SessionManager.SweepAsWritten` | src/auth/session.rs:171 | as written the filter is the same for every record: the sweep deletes all sessions or none |
| `SessionManager.SweptTableHasNoExpiredSession` | src/auth/session.rs:168-177 | after the corrected sweep no lookup reports an expired session |
| `SessionManager.SweepAsWrittenIgnoresExpiry` | src/auth/session.rs:171 | with one expired and one live session the sweep as written never matches the intended sweep |
| `SessionManager.CleanupExpiredSessionsAsWritten` | src/auth/session.rs:168-177 | the sessions table becomes the as-written sweep of the old one; other tables unchanged |
| `SessionManager.CleanupExpiredSessions` | src/auth/session.rs:168-177 | the sessions table becomes the corrected sweep of the old one; other tables unchanged |
| `CustomAuth.InsertKeepsUnique` | src/auth/custom_auth.rs:47-51 | adding a row for an identifier nobody holds keeps identifiers unique |
| `CustomAuth.InsertKeepsOwned` | src/auth/custom_auth.rs:45-51 | adding a user with an identifier row naming it keeps every row owned by an existing user |
| `CustomAuth.UniqueLookup` | src/auth/custom_auth.rs:80-91 | with unique identifiers a lookup finds at most one row |
| `CustomAuth.RegistrationChecks` | src/auth/custom_auth.rs:18-62 | in order: invalid form, duplicate identifier, hash failure, failed transaction; succeeds exactly when all four pass, with the hash |
| `CustomAuth.RegisterUser` | src/auth/custom_auth.rs:18-70 | on success adds exactly the user and its identifier row under fresh keys and returns the user id; on failure writes nothing; keeps identifiers unique and owned; the new user can log in |
| `CustomAuth.AuthenticateIn` | src/auth/custom_auth.rs:72-114 | `UserNotFound` without a row or owner, a store error for several rows, else a parse error, a verification error or the owner's id |
| `CustomAuth.AuthenticateAsWritten` | src/auth/custom_auth.rs:93-103 | as written (owners read from `user`): no identifier row means `UserNotFound`, and when no identifier names an owner in `user` it always fails |
| `CustomAuth.Authenticate` | src/auth/custom_auth.rs:72-114 | corrected (owners read from `users`): no identifier row means `UserNotFound` |
| `CustomAuth.AuthenticateSound` | src/auth/custom_auth.rs:105-113 | a successful login names the owner of the identifier row, and the password verified against that owner's hash |
| `CustomAuth.RegisterThenAuthenticate` | src/auth/custom_auth.rs:18-114 | with a sound hasher, the password just registered logs in as the new user |
| `CustomAuth.RegisterThenAuthenticateAsWritten` | src/auth/custom_auth.rs:93-103 | as written, the user just registered is refused as `UserNotFound` |
| `CustomAuth.WrongPasswordRefused` | src/auth/custom_auth.rs:109-111 | a password that does not verify is refused as a verification error |
| `ServerAuth.Answer` | src/models/api_responses.rs:3-9 | a success body carries data and no error |
| `ServerAuth.Refusal` | src/models/api_responses.rs:3-9 | a refusal body carries an error and no data |
| `ServerAuth.ClassifyLoginError` | src/server_functions/auth.rs:84-107 | 401 with `Invalid username or password.` exactly for an unknown user or a wrong password; 500 with `An internal error occurred.` otherwise |
| `ServerAuth.UnknownUserLooksLikeWrongPassword` | src/server_functions/auth.rs:87-90 | an unknown user and a wrong password get the same status and body |
| `ServerAuth.InternalFailuresAreNotCredentialFailures` | src/server_functions/auth.rs:92-96 | store and hash failures are answered with 500, never 401 |
| `ServerAuth.NewSession` | src/auth/session.rs:21-41 | the session login and register store: owner, token, one hour of validity |
| `ServerAuth.Register` | src/server_functions/auth.rs:25-75 | 422 with the violations joined by newlines; 409 with the not-unique text; server errors when registration or the session fails, leaving status and headers as they were (and no table written when registration fails); otherwise exactly the new user (name, hash, default role, timestamps) and its identifier row under fresh keys, one new session and its `Set-Cookie` header, with the status left unset; table `user` never changes, and the cookie step never fails |
| `ServerAuth.Login` | src/server_functions/auth.rs:77-131 | always answers; a failed login gets its classified status and message and writes nothing; a store refusal gets 500; otherwise one new session and its cookie |
| `ServerAuth.LoginDoesNotRevealAccounts` | src/server_functions/auth.rs:82-108 | a wrong password on a known identifier and an unknown identifier get the same answer |
| `Form.AsStr` | src/models/form.rs:18-33 | every input type's name is a non-empty lowercase word |
| `Form.ParseInputType` | src/models/form.rs:18-33 | the reference inverse of `as_str` (the source has no parser): a parsed name maps back to the same text |
| `Form.AsStrRoundTrip` | src/models/form.rs:18-33 | parsing an input type's name gives the type back |
| `Form.AsStrInjective` | src/models/form.rs:18-33 | different input types have different names |
| `Form.NewOption` | src/models/form.rs:44-51 | a new option has the value and label, and is neither disabled nor selected |
| `Form.SelectOption.Selected` | src/models/form.rs:53-56 | sets `selected` and keeps the rest |
| `Form.SelectOption.Disabled` | src/models/form.rs:58-61 | sets `disabled` and keeps the rest |
| `Form.OptionFlagsCommute` | src/models/form.rs:53-61 | the two flag builders commute and are idempotent |
| `Form.Default` | src/models/form.rs:64-108 | the derived default: empty name and label, `Text`, every flag off, every optional field absent |
| `Form.Typed` | src/models/form.rs:111-118 | a typed constructor sets name, label and type and leaves every other field at its default |
| `Form.TextConfig` | src/models/form.rs:111-118 | the `Text` constructor |
| `Form.PasswordConfig` | src/models/form.rs:120-127 | the `Password` constructor |
| `Form.NumberConfig` | src/models/form.rs:129-136 | the `Number` constructor |
| `Form.SelectConfig` | src/models/form.rs:138-145 | the `Select` constructor |
| `Form.SearchConfig` | src/models/form.rs:147-154 | the `Search` constructor |
| `Form.DateConfig` | src/models/form.rs:156-163 | the `Date` constructor |
| `Form.TimeConfig` | src/models/form.rs:165-172 | the `Time` constructor |
| `Form.CheckboxConfig` | src/models/form.rs:174-181 | the `Checkbox` constructor |
| `Form.RadioConfig` | src/models/form.rs:183-190 | the `Radio` constructor |
| `Form.TextareaConfig` | src/models/form.rs:192-199 | the `Textarea` constructor |
| `Form.InputConfig.Required` | src/models/form.rs:201-204 | sets `required`; every other field unchanged |
| `Form.InputConfig.Placeholder` | src/models/form.rs:206-209 | sets the placeholder; every other field unchanged |
| `Form.InputConfig.HelpText` | src/models/form.rs:211-214 | sets the help text; every other field unchanged |
| `Form.InputConfig.DefaultValue` | src/models/form.rs:216-219 | sets the default value; every other field unchanged |
| `Form.InputConfig.Disabled` | src/models/form.rs:221-224 | sets `disabled`; every other field unchanged |
| `Form.InputConfig.Readonly` | src/models/form.rs:226-229 | sets `readonly`; every other field unchanged |
| `Form.InputConfig.Autofocus` | src/models/form.rs:231-234 | sets `autofocus`; every other field unchanged |
| `Form.InputConfig.Class` | src/models/form.rs:236-239 | sets the input class; every other field unchanged |
| `Form.InputConfig.ContainerClass` | src/models/form.rs:241-244 | sets the container class; every other field unchanged |
| `Form.InputConfig.LabelClass` | src/models/form.rs:246-249 | sets the label class; every other field unchanged |
| `Form.InputConfig.MinLength` | src/models/form.rs:251-254 | sets the minimum length; every other field unchanged |
| `Form.InputConfig.MaxLength` | src/models/form.rs:256-259 | sets the maximum length; every other field unchanged |
| `Form.InputConfig.Pattern` | src/models/form.rs:261-264 | sets the pattern; every other field unchanged |
| `Form.InputConfig.Min` | src/models/form.rs:266-269 | sets the minimum; every other field unchanged |
| `Form.InputConfig.Max` | src/models/form.rs:271-274 | sets the maximum; every other field unchanged |
| `Form.InputConfig.Step` | src/models/form.rs:276-279 | sets the step; every other field unchanged |
| `Form.InputConfig.Rows` | src/models/form.rs:281-284 | sets the rows; every other field unchanged |
| `Form.InputConfig.Cols` | src/models/form.rs:286-289 | sets the columns; every other field unchanged |
| `Form.InputConfig.Checked` | src/models/form.rs:291-294 | sets `checked`; every other field unchanged |
| `Form.InputConfig.GetId` | src/models/form.rs:296-298 | the explicit id when there is one, the name otherwise |
| `Form.FlagBuildersIdempotent` | src/models/form.rs:201-294 | applying a flag builder twice equals applying it once |
| `Form.ApplyKeepsIdentity` | src/models/form.rs:201-294 | no builder changes name, label, type or id |
| `Form.BuildKeepsIdentity` | src/models/form.rs:201-294 | any chain of builders keeps name, label, type and id |
| `Form.BuiltIdIsName` | src/models/form.rs:111-298 | an input built from a typed constructor and any chain of builders has its name as id |
| `Mosques.Position` | src/server_functions/mosque.rs:48-55 | a node's own coordinates, a way's centre, nothing for any other element type |
| `Mosques.ToMosque` | src/server_functions/mosque.rs:47-65 | an element becomes a mosque exactly when it has a position and tags: id `mosques:<id>`, the name or `Unnamed Mosque`, street and city, the point (lon, lat) |
| `Mosques.ToMosques` | src/server_functions/mosque.rs:45-66 | never more mosques than elements |
| `Mosques.ToMosquesMembers` | src/server_functions/mosque.rs:45-66 | every mosque comes from an element, and every convertible element's mosque is kept |
| `Mosques.ToMosquesAppend` | src/server_functions/mosque.rs:45-66 | converting a concatenation is concatenating the conversions, so order is kept |
| `Mosques.ToMosquesLength` | src/server_functions/mosque.rs:45-66 | exactly one mosque per convertible element |
| `Mosques.DroppedElements` | src/server_functions/mosque.rs:54-57 | an element of another type, or one without tags, is dropped |
| `Mosques.DistinctIds` | src/server_functions/mosque.rs:60 | elements with different ids give mosques with different record ids |

## Left out

- `SessionManager.ValidateSessionToken`: accepts ASCII letters and digits only. Rust's `char::is_alphanumeric` also accepts other Unicode letters and digits. Those are never produced by the token generator, so no stored token contains them. For a client-supplied token with such characters the source goes on to the lookup and answers `SessionNotFound`, where the model answers `InvalidToken`.
- `AuthForms.ViolationText`: garde's messages are modelled by rule. The email message drops garde's detail text. Field paths are plain field names (`identifier` rather than garde's path into the enum variant).
- The email address rule of garde (the HTML5/RFC 5322 grammar) is the parameter `isEmail`.
- Store failures other than the session insert (`written`) and the registration transaction (`committed`) are not modelled. These are: connection errors; the failures of the lookup, delete, merge and sweep queries; the deserialisation failures of `take(0)`; and the `User Creation returned no data` path. Likewise the `Failed to parse query result` path and the database error of both uniqueness checks.
- When `take(0)` finds more than one matching row, the source surfaces a store error. It is modelled as `SessionError.DatabaseError` and `AuthError.DatabaseError`.
- `CustomAuth.PasswordHasher`: Argon2 hashing, PHC parsing and verification are abstract functions. `CustomAuth.Sound` states the one property the proofs use.
- The random number generator (`thread_rng`, `OsRng`) and the clock (`Utc::now`, `time::now()`) are parameters. Time is a whole number of seconds, so `chrono`'s sub-second precision is not modelled.
- The store engine is not modelled. Record keys come from a counter instead of random ids, and each table is a map.
- `SessionManager.SweepAsWritten`: how the engine orders an absent field against a datetime is the parameter `absentBeforeNow`.
- `SessionManager.MergeAt`: a merge into a record that does not exist changes nothing. Whether the engine would create such a record depends on its version, and that is not modelled.
- `SessionManager.UpdateSessionToken`: for an id naming a record of another table (an existing user's id), the source merges first and fails when reading the result back as a session. Whether the merge leaves a `session_token` field on that record depends on the table's schema. The model answers `DatabaseError` and leaves every table unchanged.
- Concurrency is not modelled. Each server function runs alone, so the window between the uniqueness check and the registration transaction is not represented.
- `ResponseOptions` beyond its status and headers, `expect_context`, the `tracing` log lines and the `ServerFnError` wire format are outside the model. Only the status, the `Set-Cookie` header and the returned body are modelled.
- `SessionManager.SessionCookie`: the cookie is stated as its `;`-joined pieces, with `Max-Age` proved to render as `3600`, rather than as one literal string.
- The cookie-failure branches of `register` and `login` (src/server_functions/auth.rs:66-69 and 121-125) are modelled and proved unreachable. A generated token always yields a legal header value.
- `SessionError`'s `Display` texts and the `anyhow` context strings are not modelled. Only `RegistrationError`'s not-unique text and the messages the server functions send are modelled.
- `add_mosques_of_region` is modelled only at src/server_functions/mosque.rs:45-66: the conversion of elements to mosques. Left out are the Overpass query text, the HTTP call and its status handling, the JSON decoding, the bulk insert, the success message, and `fetch_mosques_from_region` (geographic distance query).
- `f64` coordinates are carried as their 64-bit patterns and only copied. No floating-point arithmetic is modelled.
- `InputConfig`'s `options` and `data_attributes` have no builder in the source. They are only carried at their default `None`.
- The page and component code (`src/pages`, `src/components`) is not part of this model, apart from the identifier classification the login and register pages perform (`UserModels.ClassifyInput`).

## Findings

| source | as written | input that shows it | evidently intended | confidence | as-written member | corrected member |
|---|---|---|---|---|---|---|
| src/auth/session.rs:57 | a session counts as expired while `expires_at >= now` | a session created at time t, looked up at t: its expiry t+3600 ≥ t, so it is refused as expired; looked up at t+7200 it is accepted | refuse once `now > expires_at` | high, not executed | `SessionManager.FreshSessionRejectedAsWritten` | `SessionManager.SessionLifecycle` |
| src/auth/session.rs:171 | the sweep filters on `expired_at`, a field no session has | sessions {A expiring at now−1, B expiring at now+1}: the sweep deletes both or neither | delete where `expires_at <= now` | high, not executed | `SessionManager.SweepAsWrittenIgnoresExpiry` | `SessionManager.SweptTableHasNoExpiredSession` |
| src/auth/custom_auth.rs:94 | `authenticate` reads the owner from table `user`, while registration creates it in `users` (line 45) | register `a@b.c` with password `password1`, then log in with the same: the owner lookup finds nothing and the answer is `UserNotFound` (401) | read the owner from `users` | high, not executed | `CustomAuth.RegisterThenAuthenticateAsWritten` | `CustomAuth.RegisterThenAuthenticate` |
| src/models/auth.rs:40 | the uniqueness check queries `email`/`mobile` columns of table `user`, which user records never have | register `a@b.c` twice: the second check finds no row and passes | look the identifier up in `user_identifier` by tag and value | high, not executed | `AuthForms.UniquenessAsWrittenNeverRejects` | `AuthForms.RegisteredIdentifierRejected` |
