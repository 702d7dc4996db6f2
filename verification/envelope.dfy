/** The JSON envelopes every handler answers with (`responseHandler.js`),
    the field-error records they carry, and the codes that appear in them. */
module Envelope {
  import opened Common

  /** The request fields errors are reported against; `Path` carries a
      free-form path (a zod issue path joined by '.'). */
  datatype Name =
    | FirstName | LastName | Email | Phone | Dni | BirthDate | Gender
    | Street | City | PostalCode | Nationality | EmergencyContact | ImageUrl
    | IdParam | ProfessionalId | PatientId | StartDate | EndDate
    | Notes | ProfessionalNotes | Profession | Specialty | LicenceNumber
    | Password | CurrentPassword | NewPassword | PersonName | ConfirmPassword
    | Payload | Attachments | Path(path: string)

  /** The JSON key a field name is written as. */
  function Key(n: Name): string
  {
    match n
    case FirstName => "firstName"
    case LastName => "lastName"
    case Email => "email"
    case Phone => "phone"
    case Dni => "dni"
    case BirthDate => "birthDate"
    case Gender => "gender"
    case Street => "street"
    case City => "city"
    case PostalCode => "postalCode"
    case Nationality => "nationality"
    case EmergencyContact => "emergencyContact"
    case ImageUrl => "imageUrl"
    case IdParam => "id"
    case ProfessionalId => "professionalId"
    case PatientId => "patientId"
    case StartDate => "startDate"
    case EndDate => "endDate"
    case Notes => "notes"
    case ProfessionalNotes => "professionalNotes"
    case Profession => "profession"
    case Specialty => "specialty"
    case LicenceNumber => "professionLicenceNumber"
    case Password => "password"
    case CurrentPassword => "currentPassword"
    case NewPassword => "newPassword"
    case PersonName => "name"
    case ConfirmPassword => "confirmPassword"
    case Payload => "payload"
    case Attachments => "attachments"
    case Path(p) => p
  }

  /** Entries of `VALIDATION_CODES`, plus `Message` for the literal message
      strings some validators use instead. */
  datatype Code =
    | FormFieldsRequired | NameMustBeString | NameMinLength | NameInvalidCharacters
    | EmailInvalidFormat | EmailAlreadyExists | UserAlreadyExists
    | PhoneInvalidFormat | PhoneAlreadyExists | DniInvalidFormat | DniAlreadyExists
    | BirthdateInvalid | GenderInvalid | StreetInvalidFormat | CityInvalidFormat
    | PostalCodeInvalidFormat | NationalityInvalid | EmergencyContactInvalid
    | UrlInvalidFormat | IdInvalidFormat | NotesMaxLength
    | DateInvalidFormat | DateMustBeFuture | EndDateAfterStart
    | NotesHtmlNotAllowed | NotesTooLong
    | EndTimeBeforeStartTime | AppointmentInPast | PasswordMinLength
    | EmailTooLarge
    | Message(text: string)

  /** Entries of `MESSAGE_CODES`. */
  datatype Msg =
    | ValidationFailed | InternalServerError
    | TokenNotProvided | InvalidUser | InvalidToken
    | InsufficientPermissions | UnauthorizedProfileAccess
    | InvalidCredentials | IncorrectPassword
    | LoginSuccessful | PasswordChanged | LogoutSuccessful
    | PatientCreated | PatientsRetrieved | PatientRetrieved | PatientUpdated
    | PatientDeleted | PatientNotFound
    | ProfessionalCreated | ProfessionalsRetrieved | ProfessionalRetrieved
    | ProfessionalUpdated | ProfessionalDeleted | ProfessionalNotFound
    | AppointmentsRetrieved | AppointmentCreated | AppointmentDeleted
    | AppointmentCancelled | AppointmentNotFound | NotesUpdated
    | EmailSent | EmailTemplateNotFound | EmailSendFailed

  /** The optional `meta` object of a field error: `{min?, max?, hint?}`.
      `Empty` is `{}`. */
  datatype Meta = Meta(min: Option<int>, max: Option<int>, hint: Option<string>)

  const Empty: Meta := Meta(None, None, None)

  function Bounds(min: int, max: int): Meta { Meta(Some(min), Some(max), None) }

  function AtLeast(min: int): Meta { Meta(Some(min), None, None) }

  /** `{field, code, meta?}`; `meta` is `None` when the key is absent. */
  datatype FieldError = FieldError(field: Name, code: Code, meta: Option<Meta>)

  function Err(field: Name, code: Code): FieldError { FieldError(field, code, None) }

  /** The JSON bodies the API emits. */
  datatype Body<D> =
      /** `success`: `{success: true, messageCode, data}`. */
    | Ok(code: Msg, data: D)
      /** `error`: `{success: false, messageCode, details}`. */
    | Fail(code: Msg, details: Option<string>)
      /** `validationError`: `{success: false, messageCode: VALIDATION_FAILED, details: errors}`. */
    | Invalid(entries: seq<FieldError>)
      /** The validator files' `validate`: `{success: false, message: VALIDATION_FAILED, errors}`. */
    | Rejected(entries: seq<FieldError>)
      /** `validationErrorHandler`: `{success: false, message: 'Validation failed', errors: {path: message}}`. */
    | SchemaRejected(fieldMessages: map<string, string>)
      /** The older controllers' bare `{error: text}`. */
    | Plain(error: string)
      /** The older controllers' bare document. */
    | Raw(doc: D)

  datatype Reply<D> = Reply(status: int, body: Body<D>)

  /** The value of the body's `success` key, `None` when it has none. */
  function SuccessFlag<D>(b: Body<D>): Option<bool>
  {
    match b
    case Ok(_, _) => Some(true)
    case Fail(_, _) => Some(false)
    case Invalid(_) => Some(false)
    case Rejected(_) => Some(false)
    case SchemaRejected(_) => Some(false)
    case Plain(_) => None
    case Raw(_) => None
  }

  /** The value of the body's `messageCode` or `message` code, when it is one
      of `MESSAGE_CODES`. */
  function CodeOf<D>(b: Body<D>): Option<Msg>
  {
    match b
    case Ok(c, _) => Some(c)
    case Fail(c, _) => Some(c)
    case Invalid(_) => Some(ValidationFailed)
    case Rejected(_) => Some(ValidationFailed)
    case _ => None
  }

  /** `success(res, data, messageCode, status = 200)`. */
  function Success<D>(data: D, code: Msg, status: int := 200): (r: Reply<D>)
    ensures r.status == status && SuccessFlag(r.body) == Some(true)
    ensures CodeOf(r.body) == Some(code) && r.body.Ok? && r.body.data == data
  {
    Reply(status, Ok(code, data))
  }

  /** `error(res, messageCode, status = 500, details = null)`. */
  function Error<D>(code: Msg, status: int := 500, details: Option<string> := None): (r: Reply<D>)
    ensures r.status == status && SuccessFlag(r.body) == Some(false)
    ensures CodeOf(r.body) == Some(code) && r.body.Fail? && r.body.details == details
  {
    Reply(status, Fail(code, details))
  }

  /** `validationError(res, errors, status = 400)`: the list is passed
      through unchanged. */
  function ValidationError<D>(errors: seq<FieldError>, status: int := 400): (r: Reply<D>)
    ensures r.status == status && SuccessFlag(r.body) == Some(false)
    ensures CodeOf(r.body) == Some(ValidationFailed)
    ensures r.body.Invalid? && r.body.entries == errors
  {
    Reply(status, Invalid(errors))
  }

  /** `success: true` appears in exactly the success shape. */
  lemma OnlySuccessSaysSuccess<D>(b: Body<D>)
    ensures SuccessFlag(b) == Some(true) <==> b.Ok?
    ensures SuccessFlag(b) == Some(false) <==> (b.Fail? || b.Invalid? || b.Rejected? || b.SchemaRejected?)
  {
  }

  /** The default statuses: 200 for success, 500 with `details: null` for an
      error, 400 for a validation failure. */
  lemma DefaultStatuses<D>(data: D, code: Msg, errors: seq<FieldError>)
    ensures Success(data, code).status == 200
    ensures Error<D>(code).status == 500 && Error<D>(code).body.details == None
    ensures ValidationError<D>(errors).status == 400
  {
  }

  /** The three envelope helpers never produce each other's shapes. */
  lemma ShapesDisjoint<D>(data: D, code: Msg, c2: Msg, errors: seq<FieldError>, s1: int, s2: int, s3: int)
    ensures Success(data, code, s1).body != Error<D>(c2, s2).body
    ensures Success(data, code, s1).body != ValidationError<D>(errors, s3).body
    ensures Error<D>(c2, s2).body != ValidationError<D>(errors, s3).body
  {
  }
}
