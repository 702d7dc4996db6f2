# IronHealth clinic API — a Dafny model of its business rules

IronHealth is an Express/Mongoose REST API for a clinic. Staff manage patients, professionals and appointments through it. Patients and professionals sign in with a JWT, and the service sends transactional email. This project models the decisions the API makes, leaving out its I/O. Each decision is a pure function over immutable data:

- **Field validators** (`Dni`, `EmailSyntax`, `Patterns`, `PatientSchema`, `SchemaErrors`, `PatientRules`, `ProfessionalRules`, `AppointmentRules`, `AuthRules`, `Chains`):
  - the Spanish DNI/NIE check letter;
  - the structural email check;
  - the Mongoose patient schema;
  - the express-validator rule chains, together with their `validate` formatters;
  - the notes gate.
- **Response envelope** (`Envelope`): the three JSON shapes every handler emits.
- **Auth** (`AuthMiddleware`, `Sessions`):
  - token resolution;
  - `requireRole` and `requireOwnProfile`;
  - login, change-password and logout over a users collection.
- **Appointments** (`Booking`, `Appointments`, `Locale`):
  - the older fail-fast booking controller, which has its overlap test;
  - the newer error-collecting controller, with cancel, delete and the notes merge;
  - the language pick and the portal deep link.
- **Patients and professionals** (`Patients`, `Professionals`, `ProfessionalIntake`, `Records`):
  - create, with a linked user account;
  - list and lookup over active records;
  - update normalisation;
  - the two different soft deletes;
  - the error-accumulating `addProfessional`.
- **Email** (`EmailService`, `EmailController`, `Welcome`):
  - recipient normalisation;
  - the dev whitelist with `*@domain` rules;
  - the UTF-8 size cap;
  - template dispatch;
  - the controller's error-to-status mapping;
  - the welcome letter's text.
- **Routes** (`Routes`): the middleware order and the role gates of the patient, professional and appointment routers.

Collections are in-memory maps keyed by id, or a sequence where the source's `findOne` takes the first match. Time (`now`) is a parameter. Hashing, JWT, sanitize-html, the express-validator built-ins (`isEmail`, `isURL`, `isISO8601`, `escape`), date parsing, zod's email check and the mail provider are total functions passed in. Most are fields of `Oracles.Lib`. `isMongoId` is concrete: 24 hexadecimal characters (`Patterns.ObjectId`). JavaScript's `.length` counts UTF-16 code units (`Common.JsLength`). validator.js's `isLength` is taken to count code points (`Chains.LengthIn`).

In the text of `patient.validators.js`, the accented-letter class of the name, street, city and nationality patterns reads as Hangul syllables (`횁횋횒횙횣찼챕챠처첬횗챰횉챌`, street extras `쨘짧`). Each syllable is the UTF-8 encoding of a Spanish letter decoded as CP949, so the model reads the class as `ÁÉÍÓÚáéíóúÑñÇç`, with `º` and `ª` added for streets (`Patterns.IsAccented`).

Where the source and its tests disagree, the model follows the code and proves the discrepancy (see Findings). The model also follows the code where it differs from the schema files. The controllers and validators use `dni`, `gender`, `active` and `userId` on patients, and `Patient.model.js` does not declare them. The controller field set is used.

## Model

| member | source | states |
|---|---|---|
| `Envelope.Success` | api/middlewares/responseHandler.js:5-12 | the reply has the given status (200 when none is given), `success: true`, the message code and the data |
| `Envelope.Error` | api/middlewares/responseHandler.js:15-22 | the reply has the given status (500 by default), `success: false`, the message code and the details (null by default) |
| `Envelope.ValidationError` | api/middlewares/responseHandler.js:25-31 | the reply has the given status (400 by default), `success: false`, the code VALIDATION_FAILED and the error list unchanged |
| `Envelope.OnlySuccessSaysSuccess` | api/middlewares/responseHandler.js:4-31 | `success: true` appears in exactly the success shape; every failure shape says `false` |
| `Envelope.DefaultStatuses` | api/middlewares/responseHandler.js:5-31 | the default statuses are 200, 500 with null details, and 400 |
| `Envelope.ShapesDisjoint` | api/middlewares/responseHandler.js:5-31 | the three helpers never produce each other's bodies, whatever the statuses |
| `Chains.Check` | api/validators/patient.validators.js:50-59 | one validator with its message adds no error when it passes and exactly one, on its field with its code, when it fails |
| `Chains.ValidateDni` | api/validators/patient.validators.js:41-46 | the dni validator passes exactly when `nif_valido` accepts, and otherwise reports DNI_INVALID_FORMAT on `dni` |
| `Chains.Optional` | api/validators/professionals.validators.js:87-92 | `.optional({checkFalsy: true})` skips every validator of the chain on an empty value and keeps them all otherwise |
| `Chains.Format` | api/validators/patient.validators.js:309-313 | each error keeps its field and code, in order, and gains `meta: {}` when it had none |
| `Chains.Validate` | api/validators/patient.validators.js:306-322 | the request passes on exactly when there are no errors; otherwise 400 with VALIDATION_FAILED and the errors' fields in order |
| `Chains.ValidateListsEveryError` | api/validators/patient.validators.js:306-322 | every collected error reaches the answer with its field and code |
| `Chains.ValidateConcat` | api/validators/patient.validators.js:306-322 | a request passes all its chains together exactly when it passes each of them |
| `Patterns.PhonePatternsDiffer` | api/validators/patient.validators.js:203-207 | the update-time phone pattern and the create-time one of line 84 disagree both ways: `+12` passes only the create pattern, `0123456` only the update pattern |
| `Patterns.SixDigitsRejected` | api/validators/patient.validators.js:146-151 | six digits, with or without a leading plus, fail the emergency-contact pattern `^\+?\d{7,15}$` |
| `Records.UserById` | api/middlewares/auth.js:17 | `User.findById` yields a user with that id when one exists, and nothing only when none has it |
| `AuthMiddleware.Token` | api/middlewares/auth.js:8-10 | the token is the second space-separated piece of the header, kept only when non-empty; no header gives no token |
| `AuthMiddleware.Populated` | api/middlewares/auth.js:23-28 | a populated profile is the document the user's `profileId` names, found in the collection its `profileModel` names |
| `AuthMiddleware.VerifyToken` | api/middlewares/auth.js:6-41 | no token is TOKEN_NOT_PROVIDED, a token `verify` refuses is INVALID_TOKEN, a verified token naming a missing or inactive user is INVALID_USER, all 401; the request goes on exactly when the token names an existing active user, whose id, role and profile reference it carries; an admin gets no profile |
| `AuthMiddleware.RequireRole` | api/middlewares/auth.js:43-50 | the request goes on exactly when the caller's role is listed; otherwise 403 INSUFFICIENT_PERMISSIONS |
| `AuthMiddleware.RequireOwnProfile` | api/middlewares/auth.js:52-60 | as written: a caller without a profile reference crashes (500); otherwise the request goes on for an admin or the owner of the profile, and others get 403 UNAUTHORIZED_PROFILE_ACCESS |
| `AuthMiddleware.RequireOwnProfileIntended` | api/middlewares/auth.js:52-60 | as the admin clause intends: admins and owners go on, never a crash, others get 403 |
| `AuthMiddleware.AdminWithoutProfileCrashes` | api/middlewares/auth.js:55 | an admin without a profile reference crashes the written gate and passes the intended one |
| `AuthMiddleware.OwnProfileGatesAgree` | api/middlewares/auth.js:52-60 | whenever the caller has a profile reference, the written and the intended gate agree |
| `AuthMiddleware.BearerToken` | api/middlewares/auth.js:8 | `Authorization: <scheme> <token>` yields exactly the token |
| `AuthMiddleware.UnverifiableTokenRefused` | api/middlewares/auth.js:14-40 | a bad or expired token is INVALID_TOKEN 401, the two not told apart |
| `AuthMiddleware.SignedTokenResolves` | api/middlewares/auth.js:14-35 | a token signed for an active user resolves to that user's id, role and profile reference, with no profile for an admin |
| `Dni.ControlLetter` | api/utils/validateDNI.js:6-13 | the control letter of a number is an upper-case letter of the table, picked by the number modulo 23 |
| `Dni.Digits` | api/utils/validateDNI.js:12 | a number spelt in a fixed width is that many decimal digits |
| `Dni.DigitsRoundTrip` | api/utils/validateDNI.js:12 | `parseInt` of a number's fixed-width spelling gives the number back |
| `Dni.ValueRoundTrip` | api/utils/validateDNI.js:12 | spelling the value of a digit string in its own width gives the string back |
| `Dni.NifValido` | api/utils/validateDNI.js:1-30 | an accepted identifier is non-empty, has the DNI or the NIE shape once upper-cased and trimmed, and ends with a table letter |
| `Dni.NormalizeIdempotent` | api/utils/validateDNI.js:4 | upper-casing and trimming twice is the same as once |
| `Dni.NifIgnoresCaseAndPadding` | api/utils/validateDNI.js:2-4 | the verdict on a string equals the verdict on its upper-cased, trimmed form |
| `Dni.DniOfShape` | api/utils/validateDNI.js:7-12 | the DNI of an eight-digit number has the DNI shape, and its digits parse back to the number |
| `Dni.NieNumber` | api/utils/validateDNI.js:19-24 | an NIE's number is its prefix digit (X 0, Y 1, Z 2) times ten million plus its seven digits |
| `Dni.DniMatchIsEncoding` | api/utils/validateDNI.js:11-15 | a DNI-shaped string with the right letter is the DNI of some eight-digit number |
| `Dni.NieMatchIsEncoding` | api/utils/validateDNI.js:18-27 | an NIE-shaped string with the right letter is the NIE of some prefix and seven-digit number |
| `Dni.DniOfMatches` | api/utils/validateDNI.js:11-15 | the DNI of every eight-digit number passes the DNI branch |
| `Dni.NieOfMatches` | api/utils/validateDNI.js:18-27 | the NIE of every prefix and seven-digit number skips the DNI branch and passes the NIE branch |
| `Dni.ValidIffEncoding` | api/utils/validateDNI.js:1-30 | a normalized string is accepted exactly when it is the DNI of an eight-digit number or the NIE of a prefix and a seven-digit number |
| `Dni.WhiteAfterDigits` | api/utils/validateDNI.js:4-7 | eight digits followed by a white-space character are refused (the trim leaves eight characters) |
| `Dni.NonLetterAfterDigits` | api/utils/validateDNI.js:7 | eight digits followed by a non-letter are refused |
| `Dni.UpperLetterAfterDigits` | api/utils/validateDNI.js:11-15 | eight digits followed by a letter pass exactly when the upper-cased letter is the control letter of the digits |
| `Dni.LetterAfterDigits` | api/utils/validateDNI.js:11-15 | eight digits and one character pass exactly when the upper-cased character is the table letter at the number modulo 23 |
| `Dni.ExactlyOneLetter` | api/utils/validateDNI.js:11-15 | for every eight-digit number exactly one final letter, in either case, is accepted |
| `Dni.SampleLetter` | api/utils/validateDNI.js:11-15 | after `12345678` only `Z` or `z` is accepted |
| `Dni.KnownIdentifiers` | api/utils/validateDNI.js:11-15 | `12345678Z` is accepted and `12345678A` refused |
| `Dni.KnownPaddedIdentifier` | api/utils/validateDNI.js:4 | the lower-case, space-padded ` 12345678z ` is accepted |
| `Dni.PaddedDigits` | api/utils/validateDNI.js:4 | one space on each side of eight digits and a character changes no verdict |
| `EmailSyntax.ValidateEmail` | api/utils/validateEmail.js:6-30 | an accepted value is a string without white space holding exactly one `@` |
| `EmailSyntax.PatternMatch` | api/utils/validateEmail.js:28-29 | a string the final pattern matches has no white space and exactly one `@` |
| `EmailSyntax.LocalChecks` | api/utils/validateEmail.js:18-19 | the local-part checks (non-empty, no leading or trailing dot, no `..`) say exactly that no dot-separated piece is empty |
| `EmailSyntax.AtPosition` | api/utils/validateEmail.js:12-28 | the only `@` the pattern can match is the one the split found |
| `EmailSyntax.DomainFromPattern` | api/utils/validateEmail.js:22-28 | a host the pattern matches whose labels are all non-empty is a host name of at least two labels |
| `EmailSyntax.LastLabelOfPattern` | api/utils/validateEmail.js:23-28 | the alphabetic top-level label the pattern matches is the last piece of the host's split |
| `EmailSyntax.PatternFromDomain` | api/utils/validateEmail.js:28 | every host name with an alphabetic top-level label of two or more letters matches the host part of the pattern |
| `EmailSyntax.ValidMeansDotAtom` | api/utils/validateEmail.js:6-30 | an accepted string is a dot-atom local part, one `@` and a host name |
| `EmailSyntax.HostChecks` | api/utils/validateEmail.js:22-25 | a host name passes the domain checks |
| `EmailSyntax.ValidFromChecks` | api/utils/validateEmail.js:6-30 | a string that passes each check in turn is accepted |
| `EmailSyntax.PatternHolds` | api/utils/validateEmail.js:28-29 | the pattern test succeeds on every string of the pattern |
| `EmailSyntax.DotAtomMeansValid` | api/utils/validateEmail.js:6-30 | every dot-atom address is accepted |
| `EmailSyntax.DotAtomPartsValid` | api/utils/validateEmail.js:12-29 | a dot-atom local part joined by `@` to a host name is accepted |
| `EmailSyntax.PartChecks` | api/utils/validateEmail.js:18-25 | a dot-atom local part and a host name pass the local and domain checks |
| `EmailSyntax.PatternOfParts` | api/utils/validateEmail.js:28 | a dot-atom local part and a host name together match the final pattern |
| `EmailSyntax.PatternFromParts` | api/utils/validateEmail.js:28 | a non-empty local part of pattern characters and a host the host part matches make a string of the pattern |
| `EmailSyntax.ValidIffDotAtom` | api/utils/validateEmail.js:6-30 | a string is accepted exactly when it is a dot-atom local part, one `@` and a host name with a top-level label of two or more letters |
| `EmailSyntax.NonStringRefused` | api/utils/validateEmail.js:7 | a value that is not a string is refused |
| `EmailSyntax.ExampleAccepted` | api/utils/validationEmail.test.js:3-5 | `user@example.com` is accepted |
| `EmailSyntax.RejectedWithoutAt` | api/utils/validationEmail.test.js:7-22 | `invalid-email` and the empty string are refused |
| `EmailSyntax.NoAtRefused` | api/utils/validateEmail.js:12-13 | a string holding no `@` splits into one piece and is refused |
| `EmailSyntax.BadLocalRefused` | api/utils/validateEmail.js:12-19 | an address whose one `@` is preceded by a local part failing the dot checks is refused, whatever the domain |
| `EmailSyntax.RejectedLocalParts` | api/utils/validationEmail.test.js:11-18 | a local part with a doubled, leading or trailing dot is refused |
| `Locale.PickLang` | api/controllers/appointments.controller.js:10-15 | a body `preferredLang` of `en` or `es` wins; otherwise English exactly when the header's first two characters are `en` in any case |
| `Locale.StripTrailingSlashes` | api/controllers/appointments.controller.js:18 | `replace(/\/+$/, '')` leaves a prefix of the input not ending in `/`, and only slashes were removed |
| `Locale.PortalUrl` | api/controllers/appointments.controller.js:18 | the configured portal address, or `http://localhost:5173` when none is set |
| `Locale.Link` | api/controllers/appointments.controller.js:158 | the link starts with the stripped portal base and ends with `/<collection>/<id>` |
| `Locale.StripIdempotent` | api/controllers/appointments.controller.js:18 | stripping twice is stripping once |
| `Locale.SlashesDoNotMatter` | api/controllers/appointments.controller.js:18 | however many slashes end the configured base, the stripped base is the same |
| `Locale.NoDoubleSlash` | api/controllers/appointments.controller.js:158 | when the base holds a character other than `/`, exactly one `/` joins base and collection |
| `Locale.HeaderPrefix` | api/controllers/appointments.controller.js:10-15 | `EN-gb` chooses English, `e` and an unknown preference choose Spanish, and a body preference beats the header |
| `SchemaErrors.Messages` | utils/validationError.js:3-9 | the answer's `errors` has the keys of `err.errors`, each mapped to its message, and is `{}` without them |
| `SchemaErrors.Handle` | utils/validationError.js:1-18 | a `ValidationError` or `ValidatorError` is answered 400 with the field messages; any other error passes on unchanged |
| `SchemaErrors.NewValidationError` | utils/validationError.js:20-27 | the thrown error is named `ValidationError`, has status code 400, the message, and the field errors (`{}` by default) |
| `SchemaErrors.ThrownValidationErrorAnswered` | utils/validationError.js:1-27 | throwing the class is answered 400 with exactly its field messages |
| `SchemaErrors.DefaultErrorsEmpty` | utils/validationError.js:21 | the class built without field errors is answered with `errors: {}` |
| `SchemaErrors.OtherErrorsPassOn` | utils/validationError.js:17 | any other error reaches the next handler untouched |
| `PatientSchema.Prepare` | api/models/Patient.model.js:28-50 | on assignment the email is lower-cased, the phone trimmed, the names kept, and a missing `imageUrl` takes the default picture |
| `PatientSchema.Save` | api/models/Patient.model.js:5-54 | `save` refuses exactly the documents with a failing path, carrying every failing path's fault; a fault-free document sharing an email or phone with a stored one is a duplicate-key error; a stored document is the prepared one, added under its id, sharing no email or phone with the others |
| `PatientSchema.NameRule` | api/models/Patient.model.js:6-15 | a first or last name passes exactly when it is a non-empty string of at most 50 UTF-16 units |
| `PatientSchema.MissingLastNameFails` | tests/models/patient.test.js:50-59 | a patient without a last name fails validation with `required` on that path |
| `PatientSchema.PhoneRule` | api/models/Patient.model.js:30-42 | the phone passes exactly when, trimmed, it matches `^\+?\d{7,15}$` |
| `PatientSchema.PhoneMismatch` | api/models/Patient.model.js:35-41 | a non-matching phone fails with the custom message quoting the trimmed value |
| `PatientSchema.SixDigitPhoneFails` | tests/models/patient.test.js:61-71 | `123456` fails with "is not a valid phone number" |
| `PatientSchema.EmailRule` | api/models/Patient.model.js:16-29 | the email passes exactly when its lower-cased form is non-empty, at most 50 units, and matches `^[^\s@]+@[^\s@]+\.[^\s@]+$` |
| `PatientSchema.ImageDefault` | api/models/Patient.model.js:47-51 | without an image the default one is stored and the path passes |
| `PatientSchema.StoredNormalised` | api/models/Patient.model.js:28-34 | a stored patient's email is lower-case and its phone is the trimmed input |
| `PatientSchema.SaveKeepsOthers` | api/models/Patient.model.js:16-34 | saving never overwrites an earlier patient, and none of them shares the new email or phone |
| `PatientSchema.LowerKeepsSchemaEmail` | api/models/Patient.model.js:24-28 | lower-casing keeps an address inside the schema's email pattern |
| `PatientSchema.SafePatternFitsSchema` | api/models/Patient.model.js:21-27 | every string of `validateEmail`'s final pattern also fits the schema pattern |
| `PatientSchema.ValidatedEmailFitsSchema` | api/models/Patient.model.js:21-28 | an address `validateEmail` accepts passes the schema pattern before and after lower-casing |
| `PatientRules.CheckEmailExists` | api/validators/patient.validators.js:8-20 | passes iff no Patient and no User holds the lower-cased trimmed email; a Patient clash is EMAIL_ALREADY_EXISTS, a User-only clash USER_ALREADY_EXISTS |
| `PatientRules.CheckPhoneExists` | api/validators/patient.validators.js:23-29 | passes iff no other patient holds the trimmed phone, else one PHONE_ALREADY_EXISTS |
| `PatientRules.CheckDniExists` | api/validators/patient.validators.js:32-38 | passes iff no other patient holds the trimmed dni, else one DNI_ALREADY_EXISTS |
| `PatientRules.NameChain` | api/validators/patient.validators.js:50-70 | a name passes iff, trimmed, it has 2 to 50 characters drawn from letters, accented letters and spaces; every error is on that field with one of its three codes |
| `PatientRules.EmailCreateChain` | api/validators/patient.validators.js:72-78 | the create email passes iff it is non-empty, `isEmail`, and held by no Patient and no User; all errors are on `email` |
| `PatientRules.EmailUpdateChain` | api/validators/patient.validators.js:186-201 | the update email passes iff it is non-empty, `isEmail`, and held by no other Patient |
| `PatientRules.PhoneChain` | api/validators/patient.validators.js:80-86 | the phone passes iff, trimmed, it is non-empty, fits E.164 on create or `^\+?\d{7,15}$` on update, and no other patient holds it |
| `PatientRules.DniChain` | api/validators/patient.validators.js:88-93 | the dni passes iff, trimmed, it is non-empty, a valid NIF/NIE and unused |
| `PatientRules.BirthDateChain` | api/validators/patient.validators.js:95-105 | the birth date passes iff it is present, ISO 8601 and not at or after now |
| `PatientRules.GenderChain` | api/validators/patient.validators.js:107-111 | the gender passes iff it is one of male, female, non-binary |
| `PatientRules.ClassChain` | api/validators/patient.validators.js:113-145 | street, city and nationality pass iff, trimmed, their length is in range and every character is in their class |
| `PatientRules.PostalCodeChain` | api/validators/patient.validators.js:131-136 | the postal code passes iff, trimmed, it is exactly five digits |
| `PatientRules.EmergencyContactChain` | api/validators/patient.validators.js:147-152 | the emergency contact passes iff, trimmed, it is an optional plus and 7 to 15 digits |
| `PatientRules.ImageUrlChain` | api/validators/patient.validators.js:154-156 | the image URL passes iff it is empty or `isURL` accepts it |
| `PatientRules.RestChains` | api/validators/patient.validators.js:95-157 | the shared tail passes iff every one of its field rules holds |
| `PatientRules.CreateErrors` | api/validators/patient.validators.js:49-158 | `createPatientValidation` reports nothing iff every field chain passes |
| `PatientRules.UpdateErrors` | api/validators/patient.validators.js:161-299 | `updatePatientValidation` reports nothing iff the id is an ObjectId and every update-time chain passes |
| `PatientRules.IdErrors` | api/validators/patient.validators.js:301-303 | `patientIdValidation` reports nothing iff the id is an ObjectId, else only ID_INVALID_FORMAT on `id` |
| `PatientRules.BlankNameReportsThree` | api/validators/patient.validators.js:50-59 | a blank name collects all three of its errors: the chain does not bail |
| `PatientRules.SanitizedStillValid` | api/validators/patient.validators.js:49-158 | the body rewritten by the chains' trims passes exactly when the raw one does |
| `PatientRules.CreateEmailClash` | api/validators/patient.validators.js:8-20 | an email held by a Patient reports EMAIL_ALREADY_EXISTS and never USER_ALREADY_EXISTS |
| `PatientRules.UpdateSkipsSelf` | api/validators/patient.validators.js:192-234 | on update the edited patient may keep its own email, phone and dni |
| `PatientRules.EmailOfUserOnlyBlocksCreate` | api/validators/patient.validators.js:72-78 | an email held only by a User fails create with USER_ALREADY_EXISTS but passes update |
| `PatientRules.BirthDateStrictlyPast` | api/validators/patient.validators.js:100-105 | a parsable birth date passes iff it is ISO 8601 and strictly before now |
| `PatientRules.EmptyImageAllowed` | api/validators/patient.validators.js:155 | an empty image URL passes whatever `isURL` says |
| `ProfessionalRules.CheckEmailExists` | api/validators/professionals.validators.js:8-20 | passes iff no Professional and no User holds the lower-cased trimmed email; a Professional clash wins over a User clash |
| `ProfessionalRules.NameChain` | api/validators/professionals.validators.js:41-57 | a name passes iff, trimmed, it has 2 to 50 characters, with no character class; errors stay on that field |
| `ProfessionalRules.ProfessionChain` | api/validators/professionals.validators.js:59-64 | the profession passes iff, trimmed, it has at least 2 characters |
| `ProfessionalRules.SpecialtyChain` | api/validators/professionals.validators.js:66-69 | the specialty passes iff it has at most 100 characters, and fails with NAME_MIN_LENGTH only |
| `ProfessionalRules.EmailChain` | api/validators/professionals.validators.js:71-77 | the email passes iff it is non-empty, `isEmail`, and unused (by Users too on create, by other Professionals only on update) |
| `ProfessionalRules.DniChain` | api/validators/professionals.validators.js:79-84 | the dni passes iff, trimmed, it is non-empty, a valid NIF/NIE and held by no other professional |
| `ProfessionalRules.LicenceChain` | api/validators/professionals.validators.js:86-89 | the licence number passes iff it is empty or ASCII letters and digits only |
| `ProfessionalRules.NotesChain` | api/validators/professionals.validators.js:169-176 | the notes pass iff they have at most 1000 characters, else one NOTES_MAX_LENGTH |
| `ProfessionalRules.ImageUrlChain` | api/validators/professionals.validators.js:91-95 | the image URL passes iff it is empty or `isURL` accepts it |
| `ProfessionalRules.CreateErrors` | api/validators/professionals.validators.js:40-96 | `createProfessionalValidation` reports nothing iff every field chain passes |
| `ProfessionalRules.UpdateErrors` | api/validators/professionals.validators.js:98-182 | `updateProfessionalValidation` reports nothing iff the id is an ObjectId and every update-time chain passes |
| `ProfessionalRules.IdErrors` | api/validators/professionals.validators.js:184-186 | `professionalIdValidation` reports nothing iff the id is an ObjectId |
| `ProfessionalRules.NamesAnyCharacters` | api/validators/professionals.validators.js:41-48 | a name of 2 to 50 digits passes, unlike a patient's |
| `ProfessionalRules.LongSpecialtyCode` | api/validators/professionals.validators.js:68-69 | a specialty over 100 characters is reported as NAME_MIN_LENGTH |
| `ProfessionalRules.NotesMeasuredBeforeTrim` | api/validators/professionals.validators.js:173-175 | notes are measured before trimming, so a leading space can push 1000 characters over the limit |
| `ProfessionalRules.UserEmailBlocksOnlyCreate` | api/validators/professionals.validators.js:137-146 | an email held only by a User fails create with USER_ALREADY_EXISTS but passes update |
| `AppointmentRules.NotesSanitization` | api/validators/appointment.validators.js:9-26 | notes survive, unchanged, iff empty or free of markup and at most 500 units; markup throws NOTES_HTML_NOT_ALLOWED, clean over-long notes NOTES_TOO_LONG |
| `AppointmentRules.IdParamErrors` | api/validators/appointment.validators.js:6 | the `:id` passes iff, trimmed, it is an ObjectId, else only ID_INVALID_FORMAT |
| `AppointmentRules.IdChain` | api/validators/appointment.validators.js:30-42 | a body id passes iff, trimmed, it is an ObjectId; errors stay on that field |
| `AppointmentRules.StartChain` | api/validators/appointment.validators.js:44-54 | the start passes iff present, ISO 8601 and not at or before now; each of FORM_FIELDS_REQUIRED, DATE_INVALID_FORMAT and DATE_MUST_BE_FUTURE is reported exactly when its own test fails, and a present ISO start at or before now reports DATE_MUST_BE_FUTURE alone |
| `AppointmentRules.EndChain` | api/validators/appointment.validators.js:56-66 | the end passes iff present, ISO 8601 and not at or before the raw start; each of FORM_FIELDS_REQUIRED, DATE_INVALID_FORMAT and END_DATE_AFTER_START is reported exactly when its own test fails, and a present ISO end at or before the start reports END_DATE_AFTER_START alone |
| `AppointmentRules.Create` | api/validators/appointment.validators.js:29-69 | the create chains throw iff the notes are unacceptable; otherwise they report nothing iff both ids, the start and the end pass, and hand on the body with trimmed ids |
| `AppointmentRules.UpdateNotes` | api/validators/appointment.validators.js:71-77 | the notes chain throws iff the notes are unacceptable; otherwise it reports nothing iff the id is an ObjectId and the notes are non-empty, handing them on unchanged |
| `AppointmentRules.ValidateNotes` | api/middlewares/validateNotes.js:5-43 | the middleware lets exactly the acceptable notes through, unchanged; markup gets 400 NAME_INVALID_CHARACTERS, over-long notes 400 NAME_MIN_LENGTH with bounds 0..500 |
| `AppointmentRules.NotesRulesAgree` | api/validators/appointment.validators.js:8-26 | the middleware and the sanitizer that replaced it accept the same notes and refuse markup together |
| `AppointmentRules.FiveHundredPasses` | api/validators/appointment.validators.js:21 | the limit is inclusive: clean notes of exactly 500 units pass both rules |
| `AppointmentRules.NotesThrowWins` | api/validators/appointment.validators.js:68 | notes with markup abort the create chain whatever else is wrong |
| `AppointmentRules.EndStrictlyAfterStart` | api/validators/appointment.validators.js:61-66 | with both dates readable, the end passes iff it is strictly after the start |
| `AppointmentRules.StartNowRefused` | api/validators/appointment.validators.js:49-52 | a start at exactly the current instant is refused with DATE_MUST_BE_FUTURE alone |
| `AppointmentRules.EndAtStartRefused` | api/validators/appointment.validators.js:61-64 | an end at the same instant as the start is refused with END_DATE_AFTER_START alone |
| `AppointmentRules.UnreadableStartPasses` | api/validators/appointment.validators.js:49-54 | a start that is ISO 8601 but unreadable by `Date` passes the future check |
| `AuthRules.LoginErrors` | api/validators/auth.validators.js:5-14 | the login chain reports nothing iff the trimmed email is non-empty and `isEmail`, and a password is present; errors name only `email` and `password` |
| `AuthRules.ChangePasswordErrors` | api/validators/auth.validators.js:17-25 | the change-password chain reports nothing iff the current password is present and the new one has at least 6 characters; PASSWORD_MIN_LENGTH appears iff it is shorter |
| `AuthRules.LegacyLogin` | middleware/validators/auth.validators.js:3-10 | the older login reports nothing iff the raw email is an email and the untrimmed password has at least 6 characters; it hands on the normalized email and trimmed password |
| `AuthRules.PasswordChain` | middleware/validators/auth.validators.js:22-31 | a password passes iff it has at least 6 characters, a digit, a lower-case and an upper-case letter |
| `AuthRules.Register` | middleware/validators/auth.validators.js:12-39 | as written, registration reports nothing iff the name has 2 to 50 characters, the email is an email, the password is strong, and the confirmation equals the TRIMMED password |
| `AuthRules.RegisterIntended` | middleware/validators/auth.validators.js:12-39 | as intended, the confirmation must equal the password as typed |
| `AuthRules.PaddedConfirmRefused` | middleware/validators/auth.validators.js:31-36 | a padded password confirmed identically is refused with "Passwords do not match" |
| `AuthRules.IntendedConfirmAccepted` | middleware/validators/auth.validators.js:33-38 | under the intended rule, confirming the typed password never reports a mismatch |
| `AuthRules.LoginLengthBeforeTrim` | middleware/validators/auth.validators.js:6-9 | six spaces pass the login length check and are handed on as an empty password |
| `Sessions.LoginFieldErrors` | api/controllers/authControllers.js:11-22 | login's own check reports nothing iff both fields are present, and names exactly the missing ones |
| `Sessions.ActiveUser` | api/controllers/authControllers.js:25-26 | the lookup finds an active user with exactly that email, or there is none |
| `Sessions.Login` | api/controllers/authControllers.js:7-65 | as written: missing fields give 400; 401 INVALID_CREDENTIALS iff no active user has the email or the password does not match; with the fields present, an active user and a matching password, 200 with the signed token and the user's view iff the profile populates, else 500 with the null-read message |
| `Sessions.LoginIntended` | api/controllers/authControllers.js:39-60 | with the guard, login answers only 200, 400 or 401, and the same 401 cases; present fields, an active user and a matching password always give 200, a user without a profile getting null profile fields |
| `Sessions.SetPassword` | api/controllers/authControllers.js:94-96 | only the chosen user's password changes |
| `Sessions.ChangeFieldErrors` | api/controllers/authControllers.js:71-85 | change-password's own check reports nothing iff both fields are present and the new one has at least 6 UTF-16 units; NAME_MIN_LENGTH with min 6 iff a non-empty new password is shorter |
| `Sessions.UserIndex` | api/controllers/authControllers.js:87 | the lookup finds the user with that id, or there is none |
| `Sessions.ChangePassword` | api/controllers/authControllers.js:67-103 | 200 iff the fields pass, the user exists and the current password matches; only a 200 changes the store, and then exactly the user's hash; INCORRECT_PASSWORD 400 iff the fields pass and the current password does not match; 500 with the null-read message when the user is gone |
| `Sessions.Logout` | api/controllers/authControllers.js:105-108 | logout answers 200 LOGOUT_SUCCESSFUL and changes nothing |
| `Sessions.SameAnswerForUnknownAndWrong` | api/controllers/authControllers.js:28-36 | an unknown email and a wrong password get the same answer |
| `Sessions.InactiveCannotLogin` | __tests__/routes/auth.test.js:109-118 | an inactive user gets 401 whatever the password |
| `Sessions.AdminLogin` | __tests__/routes/auth.test.js:142-150 | an admin with the right password gets 500 as written, and 200 with null `profile` and `profileId` under the guard |
| `Sessions.LoginsAgree` | api/controllers/authControllers.js:7-65 | wherever the written login does not crash, the guarded one answers the same |
| `Sessions.ActiveUserAfterSetPassword` | api/controllers/authControllers.js:94-96 | changing a password does not change which user an email finds |
| `Sessions.WrongCurrentKeepsPassword` | api/controllers/authControllers.js:89-92 | a wrong current password gets 400 INCORRECT_PASSWORD and the store is unchanged |
| `Sessions.NewPasswordLogsIn` | api/controllers/authControllers.js:94-98 | after a successful change, the new password logs in |
| `Booking.FirstFailure` | api/controllers/appointmentControllers.js:16-59 | no check fails iff all four fields are present, both dates parse, start < end, start is after now, notes are within 500 units, both ids are 24 hex digits and no appointment of the professional or patient overlaps; only the overlap answers 409 |
| `Booking.Post` | api/controllers/appointmentControllers.js:15-69 | 201 iff no check fails, and then exactly one appointment is added under the new id, holding the request's ids and parsed dates; any other answer leaves the store alone |
| `Booking.StartBranchesCollapse` | api/controllers/appointmentControllers.js:31-41 | the same-day and other-day branches together refuse exactly a start at or before now |
| `Booking.BackToBackAllowed` | api/controllers/appointmentControllers.js:51-56 | a slot starting where another ends does not overlap it |
| `Booking.OverlapSymmetric` | api/controllers/appointmentControllers.js:53-54 | the overlap test is symmetric in the two slots |
| `Booking.CancelledStillBlocks` | api/controllers/appointmentControllers.js:51-59 | a cancelled appointment still blocks its slot with 409 |
| `Booking.RebookingConflicts` | api/controllers/appointmentControllers.js:50-64 | after a successful booking, the same request is refused with 409 |
| `Appointments.IdErrors` | api/controllers/appointments.controller.js:69-81 | a present id that is not 24 hex digits reports NAME_INVALID_CHARACTERS on its field; an absent one reports nothing here |
| `Appointments.DateErrors` | api/controllers/appointments.controller.js:84-107 | the three date checks are independent: END_TIME_BEFORE_START_TIME with its hint iff the end is not after the start, APPOINTMENT_IN_PAST on each date iff it is before now |
| `Appointments.MissingErrors` | api/controllers/appointments.controller.js:43-66 | FORM_FIELDS_REQUIRED on exactly the falsy required fields |
| `Appointments.MalformedIds` | api/controllers/appointments.controller.js:68-81 | NAME_INVALID_CHARACTERS on exactly the present ids that are not ObjectIds |
| `Appointments.CreateErrors` | api/controllers/appointments.controller.js:39-111 | create collects nothing iff both ids are ObjectIds, both dates are present and the date checks pass |
| `Appointments.Post` | api/controllers/appointments.controller.js:37-194 | 400 with every collected error iff any; 201 iff none and both dates parse, adding exactly one uncancelled appointment with the request's ids, dates and notes, starting at or after now and before its end; 500 for a date Mongoose cannot cast; only 201 changes the store |
| `Appointments.Delete` | api/controllers/appointments.controller.js:197-223 | 200 iff the id is an ObjectId that is stored, and then exactly that record is removed and returned; a malformed id gets 400 NAME_INVALID_CHARACTERS, an unknown one 404 |
| `Appointments.Cancel` | api/controllers/appointments.controller.js:226-252 | 200 iff the id is stored, and then only that record's status changes, to cancelled at now; nothing is removed; a malformed id gets 400 ID_INVALID_FORMAT, an unknown one 404 |
| `Appointments.Merge` | api/controllers/appointments.controller.js:280-282 | the `$set` writes exactly the fields the body defines and keeps everything else |
| `Appointments.UpdateNotes` | api/controllers/appointments.controller.js:255-302 | 200 iff the id is a stored ObjectId and at least one field is truthy, and then the record is merged; with neither truthy both fields are reported missing; other answers change nothing |
| `Appointments.CreateReportsEach` | api/controllers/appointments.controller.js:43-107 | every problem is reported by its own entry, independently of the others |
| `Appointments.DoubleBookingAccepted` | api/controllers/appointments.controller.js:113-122 | the newer controller books an overlapping copy of a booked slot again with 201 |
| `Appointments.CancelTwice` | api/controllers/appointments.controller.js:234-238 | cancelling again succeeds, keeps every record and changes only the timestamp |
| `Appointments.DeleteAfterCancel` | api/controllers/appointments.controller.js:209-214 | a cancelled appointment can still be deleted and is then gone |
| `Appointments.DeleteTwice` | api/controllers/appointments.controller.js:209-212 | a second delete of the same id is answered 404 |
| `Appointments.EmptyNotesOverwrite` | api/controllers/appointments.controller.js:281 | an empty `notes` sent beside truthy professional notes overwrites the stored notes with "" |
| `Appointments.ProfessionalNotesOnly` | api/controllers/appointments.controller.js:281-282 | updating only the professional notes keeps the patient's notes and everything else |
| `Patients.NewRecord` | api/controllers/patients.controller.js:26-45 | the stored patient is active, holds the dni and the lower-cased email, and takes the default image when none is given |
| `Patients.PatientUser` | api/controllers/patients.controller.js:51-58 | the provisioned login has role patient, points at the new patient and has the hashed dni as password |
| `Patients.Create` | api/controllers/patients.controller.js:6-134 | 201 PATIENT_CREATED; exactly one patient and one user are added, the others untouched; the two name each other; the answer returns the stored patient and the email and dni as credentials |
| `Patients.ActiveOnly` | api/controllers/patients.controller.js:139 | the listing holds exactly the active patients, unchanged |
| `Patients.Get` | api/controllers/patients.controller.js:147-161 | 200 with the record iff it is stored and active, else 404 PATIENT_NOT_FOUND |
| `Patients.Updated` | api/controllers/patients.controller.js:189-205 | the written record trims the text fields, lower-cases the email, keeps gender and nationality as given, the login link and the active flag, and the image unless a new one is given |
| `Patients.Update` | api/controllers/patients.controller.js:163-214 | 200 iff the id is stored, active or not, and then only that record is replaced; otherwise 404 and nothing changes |
| `Patients.Delete` | api/controllers/patients.controller.js:216-234 | 200 iff the id is stored; then only that record's active flag is cleared and nothing is removed; otherwise 404 |
| `Patients.CreateLinksBothWays` | api/controllers/patients.controller.js:51-111 | after creation the patient names its user and the user's populated profile is the patient |
| `Patients.NewPatientLogsIn` | api/controllers/patients.controller.js:51-58 | a new patient logs in with the email and the dni as password |
| `Patients.DeletedIsHidden` | api/controllers/patients.controller.js:139-154 | a deleted patient disappears from the list and from lookups, yet its record is kept |
| `Patients.DeleteIdempotent` | api/controllers/patients.controller.js:225-229 | deleting twice answers 200 both times and leaves the store as deleting once |
| `Patients.EditAfterDelete` | api/controllers/patients.controller.js:183-207 | a deleted patient can still be edited and stays inactive |
| `Patients.RetrimHarmless` | api/controllers/patients.controller.js:192-204 | the handler's trims repeat the validators': a sanitized body is stored as the raw one, except the nationality only the validators trim |
| `Patients.CreatePhoneOutsideSchema` | api/validators/patient.validators.js:80-86 | `+12` passes the create chain's phone checks, yet the schema's `^\+?\d{7,15}$` (`Patient.model.js:36-38`) makes `save` refuse the document: the handler accepts what the schema would not |
| `Professionals.NewRecord` | api/controllers/professionals.controller.js:20-37 | the stored professional is active, holds the generated colour, the dni and the email, and has no image unless one is given |
| `Professionals.Create` | api/controllers/professionals.controller.js:7-122 | 201 PROFESSIONAL_CREATED; exactly one professional and one active professional login are added, naming each other; the answer returns the stored record and the email and dni as credentials |
| `Professionals.ActiveOnly` | api/controllers/professionals.controller.js:127 | the listing holds exactly the active professionals, unchanged |
| `Professionals.Get` | api/controllers/professionals.controller.js:135-149 | 200 with the record iff it is stored and active, else 404 PROFESSIONAL_NOT_FOUND |
| `Professionals.Updated` | api/controllers/professionals.controller.js:172-184 | the written record trims the fields, lower-cases the email, writes "" for an absent specialty or licence, and keeps the login link, active flag, colour and, unless replaced, the image |
| `Professionals.Update` | api/controllers/professionals.controller.js:151-192 | 200 iff the id is stored, active or not, and then only that record is replaced; otherwise 404 and nothing changes |
| `Professionals.Delete` | api/controllers/professionals.controller.js:194-212 | 200 iff the id is stored; then only that record's active flag is negated, whatever it was; otherwise 404 |
| `Professionals.SecondDeleteRestores` | api/controllers/professionals.controller.js:203-205 | a second delete restores the professional exactly, while a patient deleted twice stays deleted |
| `Professionals.DeletedIsHidden` | api/controllers/professionals.controller.js:127-141 | a deleted active professional disappears from the list and lookups and its login is untouched |
| `Professionals.MissingSpecialtyClears` | api/controllers/professionals.controller.js:178 | an update without a specialty clears the stored one |
| `Professionals.NewProfessionalLogsIn` | api/controllers/professionals.controller.js:43-51 | a new professional logs in with the email and the dni as password |
| `ProfessionalIntake.PresenceErrors` | api/controllers/professionalsControllers.js:29-43 | NAME_MUST_BE_STRING on exactly the names that are not non-empty strings, FORM_FIELDS_REQUIRED on a falsy dni |
| `ProfessionalIntake.NameLengthErrors` | api/controllers/professionalsControllers.js:44-63 | NAME_MIN_LENGTH with bounds 2..50 on exactly the non-empty string names whose trimmed length is out of range |
| `ProfessionalIntake.RoleLengthErrors` | api/controllers/professionalsControllers.js:65-79 | NAME_MIN_LENGTH with min 2 iff the trimmed profession is shorter than 2 or missing; with bounds 0..100 iff the specialty exceeds 100 units |
| `ProfessionalIntake.FormatErrors` | api/controllers/professionalsControllers.js:81-98 | EMAIL_INVALID_FORMAT iff `validateEmail` refuses, DNI_INVALID_FORMAT iff `nif_valido` refuses, NAME_INVALID_CHARACTERS iff a licence has a non-alphanumeric character |
| `ProfessionalIntake.ClashErrors` | api/controllers/professionalsControllers.js:100-114 | each lookup adds its own error iff a professional has the email, a professional has the dni, or a user has the email, compared as given |
| `ProfessionalIntake.BodyErrors` | api/controllers/professionalsControllers.js:29-98 | the body checks report nothing iff each group reports nothing |
| `ProfessionalIntake.Errors` | api/controllers/professionalsControllers.js:26-119 | the handler collects nothing iff the body checks and the lookups all pass |
| `ProfessionalIntake.NewRecord` | api/controllers/professionalsControllers.js:127-136 | the stored professional holds the fields as given, the colour, the login link, no image, and is active |
| `ProfessionalIntake.Admit` | api/controllers/professionalsControllers.js:121-168 | 400 with every collected error iff any, changing nothing; otherwise 201, adding the professional and an active login with the hashed dni, and returning the email and dni as credentials |
| `ProfessionalIntake.AddProfessional` | api/controllers/professionalsControllers.js:14-184 | 500 with the thrown message iff a name, the profession or the dni is a truthy non-string; otherwise 400 or 201 as the collected errors decide |
| `ProfessionalIntake.ListAll` | api/controllers/professionalsControllers.js:186-204 | the older listing returns every stored professional, active or not |
| `ProfessionalIntake.MissingDniTwice` | api/controllers/professionalsControllers.js:41-89 | a missing dni is reported both as missing and as malformed |
| `ProfessionalIntake.NonStringName` | api/controllers/professionalsControllers.js:29-53 | a falsy non-string name is reported as NAME_MUST_BE_STRING and not for its length |
| `ProfessionalIntake.AllClashesReported` | api/controllers/professionalsControllers.js:100-114 | an email held by a professional and a user, with a dni held by a professional, collects all three clash errors |
| `ProfessionalIntake.AdmittedLogsIn` | api/controllers/professionalsControllers.js:142-151 | the provisioned login answers the email and the dni |
| `ProfessionalIntake.CreatedProfessionalLogsIn` | api/controllers/professionalsControllers.js:14-168 | a professional created here logs in with the email and the dni through the login handler as written |
| `ProfessionalIntake.ListsDiffer` | api/controllers/professionalsControllers.js:188 | the older listing includes everything the newer one does, and still shows a professional the newer handler deleted |
| `Welcome.SafeName` | api/services/email/templates/patientWelcome.js:5 | the greeting name is never empty, and is the first name whenever that is non-empty |
| `Welcome.AnchorBlock` | api/services/email/templates/patientWelcome.js:13-18 | the portal block links to the given address |
| `Welcome.Html` | api/services/email/templates/patientWelcome.js:8-22 | the HTML begins with the greeting head, ends with the footer, and links to the portal when one is known |
| `Welcome.Text` | api/services/email/templates/patientWelcome.js:24-29 | the text body ends with a line break |
| `Welcome.Render` | api/services/email/templates/patientWelcome.js:4-32 | the subject is the welcome lead, the safe name and "!"; the bodies are rendered for the safe name |
| `Welcome.TextRoundTrip` | api/services/email/templates/patientWelcome.js:24-29 | when name and address hold no line break, the text splits back into its four lines, the last empty |
| `Welcome.HtmlShape` | api/services/email/templates/patientWelcome.js:8-22 | the HTML is head, portal block (empty without a portal) and footer |
| `Welcome.AnchorIsTheOnlyDifference` | api/services/email/templates/patientWelcome.js:12-19 | with and without a portal the HTML differs only by the anchor block, inserted at the same place |
| `Welcome.EmptyNameIsMissing` | api/services/email/templates/patientWelcome.js:5-6 | an empty and a missing first name render the same email, greeting "Paciente" |
| `EmailService.TrimAll` | api/services/email/index.js:15 | each piece is trimmed, in place |
| `EmailService.NonEmpty` | api/services/email/index.js:16 | the filter keeps exactly the non-empty pieces |
| `EmailService.Whitelist` | api/services/email/index.js:13-16 | every whitelist rule is non-empty, has no white space at either end and no comma |
| `EmailService.MaxBytes` | api/services/email/index.js:19-21 | the cap is 0 iff the configured megabytes are not positive, else exactly that many MiB |
| `EmailService.Load` | api/services/email/index.js:8-21 | sending is enabled iff the flag lower-cases to "true"; the whitelist and the cap come from their variables |
| `EmailService.NormalizeTo` | api/services/email/index.js:27-30 | the recipient list is empty iff `to` is absent, "" or an empty list; one address becomes a list of one; a list is kept |
| `EmailService.CharBytes` | api/services/email/index.js:54-58 | a character takes 1 to 4 UTF-8 bytes, 1 iff it is ASCII |
| `EmailService.Utf8Len` | api/services/email/index.js:54-58 | a string's UTF-8 size lies between its length and four times it |
| `EmailService.AttachmentBytes` | api/services/email/index.js:70-77 | a null attachment adds nothing |
| `EmailService.ApproxSize` | api/services/email/index.js:64-80 | the estimate is at least the size of the subject and both bodies |
| `EmailService.Decimal` | api/services/email/index.js:94 | a size is written as a non-empty run of decimal digits |
| `EmailService.SendRaw` | api/services/email/index.js:85-125 | MISSING_RECIPIENT iff there is no recipient; EMAIL_TOO_LARGE with the measured size and cap iff there are recipients and a cap is strictly exceeded; otherwise a recipient the configuration does not allow gives "sandbox-skip", and the rest is the provider's answer or its error |
| `EmailService.Send` | api/services/email/index.js:132-137 | MISSING_CONTENT iff subject, html and text are all empty; otherwise exactly `sendRaw` |
| `EmailService.WelcomeLetter` | api/services/email/index.js:147-153 | the welcome letter has a subject and no attachments |
| `EmailService.TemplateNamed` | api/services/email/index.js:146-163 | exactly the names "patient_welcome" and "appointment_booked" are templates |
| `EmailService.TemplateLetter` | api/services/email/index.js:147-161 | each known template yields its own letter |
| `EmailService.SendTemplate` | api/services/email/index.js:143-165 | an empty name fails with TEMPLATE_REQUIRED; EMAIL_TEMPLATE_NOT_FOUND iff a non-empty name is unknown; a known one is sent as `sendRaw` sends its letter |
| `EmailService.Utf8LenAppend` | api/services/email/index.js:54-58 | the UTF-8 size of a concatenation is the sum of the parts' |
| `EmailService.AsciiSize` | api/services/email/index.js:57 | ASCII text takes one byte a character |
| `EmailService.AttachmentsAppend` | api/services/email/index.js:69-78 | the size of an attachment list is additive |
| `EmailService.MoreAttachmentsNeverSmaller` | api/services/email/index.js:64-80 | more attachments never shrink the estimate, so an oversize letter stays oversize; a null entry adds nothing |
| `EmailService.CapBoundary` | api/services/email/index.js:90-92 | the cap is strict and optional: a letter exactly at the cap, or any letter without a cap, is never too large |
| `EmailService.TrimAllAppend` | api/services/email/index.js:15 | trimming distributes over concatenation |
| `EmailService.NonEmptyAppend` | api/services/email/index.js:16 | filtering distributes over concatenation |
| `EmailService.WhitelistAppend` | api/services/email/index.js:13-16 | joining two whitelist strings with a comma joins their rules |
| `EmailService.WhitelistOfOne` | api/services/email/index.js:13-16 | a comma-free entry is one rule once trimmed, or none when blank |
| `EmailService.WildcardAdmitsDomain` | api/services/email/index.js:35-41 | "*@domain" admits every mailbox at that domain, whatever the case |
| `EmailService.ExactRuleIgnoresCase` | api/services/email/index.js:35-41 | an exact rule admits its address in any case, and nothing else |
| `EmailService.NoWhitelistNeverDelivers` | api/services/email/index.js:47-51 | outside production with no whitelist the provider is never called |
| `EmailService.OneBlockedHoldsAll` | api/services/email/index.js:50 | one recipient the whitelist does not admit turns the whole send into a sandbox skip |
| `EmailService.ProductionDelivers` | api/services/email/index.js:48 | in production a send that passes the checks returns the provider's id |
| `EmailService.ContentCheckedFirst` | api/services/email/index.js:132-137 | `send` checks content before recipients, `sendRaw` checks recipients |
| `EmailService.DecimalRoundTrip` | api/services/email/index.js:94 | the size written in the message reads back as the number measured |
| `EmailService.TooLargeIsNoTemplateMiss` | api/services/email/index.js:93-95 | the size error's message never contains EMAIL_TEMPLATE_NOT_FOUND |
| `EmailController.ToIssues` | api/controllers/email.controller.js:9 | `to` passes iff it is a string that is an email of at least 5 units; a short one ends with the EMAIL_INVALID_FORMAT issue; every issue is on `to` |
| `EmailController.SubjectIssues` | api/controllers/email.controller.js:10 | `subject` passes iff absent or a string of 1 to 150 units |
| `EmailController.OptionalIssues` | api/controllers/email.controller.js:11-12 | `html` and `text` pass iff absent or strings |
| `EmailController.TemplateIssues` | api/controllers/email.controller.js:14 | `template` passes iff absent or one of the two template names |
| `EmailController.DataIssues` | api/controllers/email.controller.js:16 | `data` passes iff absent or an object |
| `EmailController.RequestIssues` | api/controllers/email.controller.js:8-17 | a body has no issue iff it conforms to the schema |
| `EmailController.Issues` | api/controllers/email.controller.js:21 | a non-object body is one issue at the root; a missing body is parsed as `{}` and always has issues |
| `EmailController.Detail` | api/controllers/email.controller.js:24-27 | an issue at the root is reported on `payload`, others on their path; the message becomes EMAIL_INVALID_FORMAT iff it is that key, else it is kept as text |
| `EmailController.Details` | api/controllers/email.controller.js:24-27 | one detail per issue, in order |
| `EmailController.Dispatch` | api/controllers/email.controller.js:35-47 | a named template is sent through `sendTemplate`; otherwise nothing is sent iff the subject is empty or both bodies are, and the rest goes through `send` |
| `EmailController.Respond` | api/controllers/email.controller.js:38-57 | 200 with the id iff sent; 400 EMAIL_TEMPLATE_NOT_FOUND iff the failure's message contains that marker; 413 on `attachments` iff the letter was too large; else 500 EMAIL_SEND_FAILED with a non-empty message |
| `EmailController.SizeMessageNamesNoTemplate` | api/controllers/email.controller.js:50-55 | the size error never takes the missing-template branch |
| `EmailController.Handle` | api/controllers/email.controller.js:19-59 | a body with issues gets 400 with their details; a conforming one gets 400 FORM_FIELDS_REQUIRED on `payload` when there is nothing to send, else the reply for the send's outcome |
| `EmailController.ShortAddressIsInvalidFormat` | api/controllers/email.controller.js:9 | a short address is reported last as EMAIL_INVALID_FORMAT on `to`, alone when it is an email |
| `EmailController.NoBodyNamesTo` | api/controllers/email.controller.js:21-28 | a request without a body gets 400 naming `to` first |
| `EmailController.OnlySizeOrProviderFails` | api/controllers/email.controller.js:33-47 | a conforming body only fails on size or at the provider |
| `EmailController.TemplateMissIsProviderMessage` | api/controllers/email.controller.js:50-52 | with a conforming body, a template-not-found reply can only come from a provider error naming the marker |
| `EmailController.OversizeIs413` | api/controllers/email.controller.js:53-56 | an oversize letter is answered 413 on `attachments` |
| `EmailController.TemplateIgnoresContent` | api/controllers/email.controller.js:35-39 | with a template, the subject and bodies are not looked at |
| `EmailController.SubjectOnlyRefused` | api/controllers/email.controller.js:42-44 | a subject alone, which the service would send, is refused by the handler |
| `EmailController.SandboxAnswers200` | api/controllers/email.controller.js:46-47 | outside production an address off the whitelist is answered 200 with the sandbox id |
| `Routes.App` | api/routes/patients.route.js:20-59 | the table holds the sixteen endpoints of the three routers, the patient lookup guarded by the given gate and the appointment routes last |
| `Routes.Run` | api/routes/professionals.route.js:20-55 | a chain reaches its handler only when no stage is unresolved, and a middleware only ever answers 400, 401 or 403 |
| `Routes.Serve` | api/routes/patients.route.js:16 | an app with an unresolved import serves nothing; a loaded one runs the route's chain and is never unavailable |
| `Routes.UnavailableNeedsUnresolved` | api/routes/patients.route.js:16 | only an unresolved import makes a chain unavailable |
| `Routes.AsWrittenNeverLoads` | api/routes/patients.route.js:16 | as written, importing `requireOwnPatientOrAdmin` leaves every request unserved; with the exported own-profile gate and the appointment model imported by name the app loads |
| `Routes.GateAloneDoesNotLoad` | api/controllers/appointments.controller.js:3 | with the gate fixed but the appointment model still imported by default, the app does not link and serves nothing |
| `Routes.CorrectedLoads` | api/models/Appointment.model.js:30 | with both imports naming exported bindings, every route links |
| `Routes.GatedRouteIff` | api/routes/patients.route.js:23-50 | a gated route reaches its handler iff the token resolves, the role is allowed and the body passes its validator |
| `Routes.TokenComesFirst` | api/routes/patients.route.js:23-59 | without a valid token every guarded route answers 401, whatever the body |
| `Routes.PatientsAreForbidden` | api/routes/patients.route.js:22-50 | a patient gets 403 on the staff routes of the patient router, even with an invalid body |
| `Routes.ProfessionalWritesNeedAdmin` | api/routes/professionals.route.js:20-55 | creating, deleting and editing a professional answer 403 to anyone but an admin |
| `Routes.AnyRoleReadsProfessionals` | api/routes/professionals.route.js:29-46 | any valid token lists the professionals, and looks one up when the id passes |
| `Routes.AppointmentsIgnoreToken` | api/routes/appointments.route.js:19-41 | the appointment routes read no token, and their middleware only answers 400 |
| `Routes.NotesReachHandlerFilled` | api/routes/appointments.route.js:36-41 | a request reaching the notes handler carries non-empty notes; empty notes are answered 400 |
| `Routes.AdminLookupCrashes` | api/routes/patients.route.js:52-59 | with the exported gate, an admin without a profile reference crashes on a patient lookup |

## Left out

- Persistence: MongoDB I/O, `populate` and `.save()` failures in the handlers. The schema's validation and unique indexes are modelled on their own by `PatientSchema.Save`, but the handlers (`Patients.Create`, `Patients.Update`) do not pass through it, so a document the schema would refuse (a create-time phone such as `+12`, an email over 50 units) is answered 201 where the source answers 500. The database errors that answer 500 are left out; collections are in-memory values.
- The check-then-act race between the overlap query and the insert in the older booking controller: it is a concurrency issue.
- JWT signing and verification, bcrypt hashing and comparison: these are uninterpreted parameters.
- sanitize-html, the express-validator built-ins, zod parsing and its email regex: these are given functions (`Oracles.Lib`, and the `isEmail` parameter of the email controller).
- zod's default message texts: these are the `describe` parameter. Each is assumed not to be the key `EMAIL_INVALID_FORMAT`.
- Request values of types other than string. Body text fields are strings, and a missing one reads as `""`. `Field` is used only where the source tells undefined and non-string values apart.
- Lookups with a non-string email or dni in `addProfessional`: only the string case is modelled.
- The `.trim()` calls on fields missing from a patient update, which throw in the source: every update field is taken as present.
- Cast errors for ids that are not ObjectIds: in handlers without an id validator, and in the update validators' uniqueness lookups (`_id: {$ne: req.params.id}` in `patient.validators.js` and `professionals.validators.js`), where a malformed `:id` makes each lookup throw and adds one more error entry on email, phone or dni beside ID_INVALID_FORMAT. The model reports ID_INVALID_FORMAT alone there; whether the request passes is the same, only the list of entries is shorter.
- The `0x`/`0h` prefix `isMongoId` admits (validator.js `isHexadecimal`): `Patterns.ObjectId` refuses such ids, where the source lets them through the validator and then answers 500 from the cast in `findById`.
- The variation selectors U+FE0E and U+FE0F, which validator.js `isLength` leaves out of its count: `Chains.LengthIn` counts every code point.
- The case of ObjectId hex digits: ids compare as the strings they are.
- `Common.Lower` and `Common.Upper` map ASCII letters only. Full Unicode case mapping is not modelled: for example `toUpperCase` turns `ſ` into `S`, so `validateDNI.js` accepts `00000015ſ`, which `Dni.NifValido` refuses.
- The User model's password hook: `User.model.js` is not part of this model, and every stored password is modelled as hashed exactly once. The patient and professional creators hand the plain dni to the User model (`patients.controller.js:51-58`, `professionals.controller.js:43-51`), while change-password and the older `addProfessional` hash first and then save (`authControllers.js:94-96`, `professionalsControllers.js:142`). Both give one hash only if the hook leaves an already-hashed value alone, which is what `__tests__/routes/auth.test.js:154-169` expects when a changed password logs in. `Sessions.NewPasswordLogsIn`, `ProfessionalIntake.AdmittedLogsIn` and `ProfessionalIntake.CreatedProfessionalLogsIn` rest on this assumption.
- The patterns' accented-letter class taken literally, as the Hangul syllables the file text shows: the model uses the Spanish letters those bytes encode.
- `setImmediate` email hooks: they are asynchronous and never change the response.
- `assignColor`: it uses `Math.random` and floating-point HSL values. The professional's colour is a parameter.
- The appointment-booked letter (`appointmentBooked.js`, `ics.js`): it depends on locale date formatting and the ics library. The rendered letter is a parameter.
- The provider internals (`resendProvider.js`), `getSignature` on `/signature`, and the upload middlewares: these are network and Cloudinary calls.
- A fractional or NaN `EMAIL_MAX_TOTAL_SIZE_MB`: the cap is an integer number of megabytes.
- A provider error that itself carries the code `EMAIL_TOO_LARGE`: provider failures are modelled as one failure kind.
- Non-string data fields in an email request: they are taken as absent or as strings.
- The `{id}` wrapper in the email controller's 200 reply: the model keeps only the delivery id.
- The rate limiter in front of the email route (`email.route.js`): it depends on the clock and on per-client counters.
- Booking.Post and Appointments.Post, with the other `Booking` and `Appointments` members: they model the controllers with the appointment model imported by its exported name. As written, both controllers default-import a module with no default export and never load; that is recorded in `Routes.AsWritten` and under "## Findings".
- Matching URLs to route patterns: `Routes` indexes the route table directly by verb and pattern.
- Express's default error handler: an exception escaping a handler is modelled as the outcome `Crashed`, which stands for a 500.
- `getAppointments` and its `populate` calls: the list is a plain database read.
- Strict mode of the appointment schema, and the name/surname/speciality field names in `professionals.model.js`: the controllers' field names are used.
- `User.model.js` is not part of this model. The user record holds only the fields the controllers read and write.
- `newsletter.js`, the superseded `patientControllers.js` and `professionals.js`, the legacy route files, `auth.route.js`, seeds and configuration: these are wiring or dead code outside the core.
- EmailController.NoBodyNamesTo: states only the first detail entry. The order of the later entries follows zod's schema walk, which is not modelled.
- Welcome.Text: its own contract states only that the text ends with a line break. The exact four lines are stated by `Welcome.TextRoundTrip`.
- Patients.List and Professionals.List: these carry no row, because their contracts restate the filter. `Patients.ActiveOnly` and `Professionals.ActiveOnly` state the property.

## Findings

| source | as written | input that shows it | evidently intended | confidence | as-written member | corrected member |
|---|---|---|---|---|---|---|
| api/controllers/authControllers.js:43 | login reads `user.profileId._id` for every user, and an admin's `profileId` is null, so the handler throws and answers 500 | an active admin with the right password | 200 with `profileId: null` and `profile: null`, as `__tests__/routes/auth.test.js:142-150` expects | not executed | `Sessions.AdminLogin` | `Sessions.LoginsAgree` |
| api/middlewares/auth.js:55 | `requireOwnProfile` calls `req.user.profileId.toString()` before it looks at the role, so an admin without a profile crashes | an admin with a null profile reference, any `:id` | admins pass whatever `:id` is | not executed | `AuthMiddleware.AdminWithoutProfileCrashes` | `AuthMiddleware.OwnProfileGatesAgree` |
| middleware/validators/auth.validators.js:31-36 | `.trim()` rewrites `password` before the `confirmPassword` check runs, so an identical confirmation of a padded password mismatches | password `" Abc123"` with the same confirmation | a confirmation equal to the password as typed is accepted | not executed | `AuthRules.PaddedConfirmRefused` | `AuthRules.IntendedConfirmAccepted` |
| api/routes/patients.route.js:16 | imports `requireOwnPatientOrAdmin`, which `api/middlewares/auth.js` does not export, so the module fails to link and no route is served | any request | the patient lookup is gated by an exported own-profile-or-admin check | not executed | `Routes.AsWrittenNeverLoads` | `Routes.GatedRouteIff` |
| api/controllers/appointments.controller.js:3 | `import Appointment from` the model, which exports only the named `Appointment` (`api/models/Appointment.model.js:30`), so the appointment router fails to link; `api/controllers/appointmentControllers.js:3` does the same | any request, once the gate import is fixed | `import { Appointment } from`, as `__tests__/routes/appointments.test.js` expects bookings to succeed | not executed | `Routes.GateAloneDoesNotLoad` | `Routes.CorrectedLoads` |

The newer appointment controller (`api/controllers/appointments.controller.js:113-122`) books an overlapping slot that the older one refuses with 409. `Appointments.DoubleBookingAccepted` and `Booking.RebookingConflicts` state the two behaviours. Both controllers are modelled as written.
