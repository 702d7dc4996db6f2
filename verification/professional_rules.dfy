/** The express-validator chains for creating and updating a professional
    (`professionals.validators.js`).  They differ from the patient chains:
    names have no character class, specialty, licence number, notes and
    image are optional, and uniqueness is checked against Professionals. */
module ProfessionalRules {
  import opened Common
  import opened Envelope
  import opened Patterns
  import opened Chains
  import opened Records
  import Oracles
  import Dni

  /** The body fields the chains read; a missing field reads as "". */
  datatype Form = Form(
    firstName: string, lastName: string, profession: string, specialty: string,
    email: string, dni: string, licence: string, professionalNotes: string, imageUrl: string)

  predicate EmailTaken(pros: map<Id, ProfessionalRecord>, except: Option<Id>, key: string)
  {
    exists id | id in pros && Some(id) != except :: pros[id].email == key
  }

  predicate DniTaken(pros: map<Id, ProfessionalRecord>, except: Option<Id>, key: string)
  {
    exists id | id in pros && Some(id) != except :: pros[id].dni == key
  }

  /** `checkEmailExists`: Professionals first (EMAIL_ALREADY_EXISTS), then
      Users (USER_ALREADY_EXISTS), on the lower-cased, trimmed value. */
  function CheckEmailExists(db: Db, value: string): (errs: seq<FieldError>)
    ensures var key := Trim(Lower(value));
      errs == [] <==> !EmailTaken(db.professionals, None, key) && !UserWithEmail(db.users, key)
    ensures EmailTaken(db.professionals, None, Trim(Lower(value))) ==> errs == [Err(Email, EmailAlreadyExists)]
    ensures !EmailTaken(db.professionals, None, Trim(Lower(value))) && UserWithEmail(db.users, Trim(Lower(value)))
      ==> errs == [Err(Email, UserAlreadyExists)]
    ensures AllOn(errs, Email)
  {
    var key := Trim(Lower(value));
    if EmailTaken(db.professionals, None, key) then [Err(Email, EmailAlreadyExists)]
    else if UserWithEmail(db.users, key) then [Err(Email, UserAlreadyExists)]
    else []
  }

  /** A name: trimmed, required, 2 to 50 characters.  The `isString` step
      sees the trimmed string and never reports. */
  function NameChain(field: Name, raw: string): (errs: seq<FieldError>)
    ensures errs == [] <==> LengthIn(Trim(raw), 2, 50)
    ensures forall e | e in errs :: e.field == field && e.code in {FormFieldsRequired, NameMinLength}
  {
    var v := Trim(raw);
    Check(v != "", field, FormFieldsRequired) + Check(LengthIn(v, 2, 50), field, NameMinLength)
  }

  /** profession: trimmed, required, at least 2 characters, no maximum. */
  function ProfessionChain(raw: string): (errs: seq<FieldError>)
    ensures errs == [] <==> |Trim(raw)| >= 2
    ensures AllOn(errs, Profession)
  {
    var v := Trim(raw);
    Check(v != "", Profession, FormFieldsRequired) + Check(|v| >= 2, Profession, NameMinLength)
  }

  /** specialty: optional, untrimmed, at most 100 characters, and reported
      under NAME_MIN_LENGTH. */
  function SpecialtyChain(raw: string): (errs: seq<FieldError>)
    ensures errs == [] <==> |raw| <= 100
    ensures errs != [] ==> errs == [Err(Specialty, NameMinLength)]
  {
    Optional(raw, Check(|raw| <= 100, Specialty, NameMinLength))
  }

  function EmailChain(db: Db, lib: Oracles.Lib, except: Option<Id>, raw: string): (errs: seq<FieldError>)
    ensures var v := Trim(raw);
      errs == [] <==>
        v != "" && lib.isEmail(v) && !EmailTaken(db.professionals, except, Trim(Lower(v)))
        && (except.None? ==> !UserWithEmail(db.users, Trim(Lower(v))))
    ensures AllOn(errs, Email)
  {
    var v := Trim(raw);
    var a := Check(v != "", Email, FormFieldsRequired);
    var b := Check(lib.isEmail(v), Email, EmailInvalidFormat);
    var c := if except.None? then CheckEmailExists(db, v)
      else Check(!EmailTaken(db.professionals, except, Trim(Lower(v))), Email, EmailAlreadyExists);
    Concat3(a, b, c, Email);
    a + b + c
  }

  function DniChain(pros: map<Id, ProfessionalRecord>, except: Option<Id>, raw: string): (errs: seq<FieldError>)
    ensures var v := Trim(raw);
      errs == [] <==> v != "" && Dni.NifValido(v) && !DniTaken(pros, except, v)
    ensures AllOn(errs, Name.Dni)
  {
    var v := Trim(raw);
    TrimIdempotent(raw);
    var a := Check(v != "", Name.Dni, FormFieldsRequired);
    var b := ValidateDni(v);
    var c := Check(!DniTaken(pros, except, Trim(v)), Name.Dni, DniAlreadyExists);
    Concat3(a, b, c, Name.Dni);
    a + b + c
  }

  /** professionLicenceNumber: optional, ASCII letters and digits only. */
  function LicenceChain(raw: string): (errs: seq<FieldError>)
    ensures errs == [] <==> raw == "" || Alphanumeric(raw)
    ensures errs != [] ==> errs == [Err(LicenceNumber, NameInvalidCharacters)]
  {
    Optional(raw, Check(Alphanumeric(raw), LicenceNumber, NameInvalidCharacters))
  }

  /** professionalNotes (update only): optional, at most 1000 characters
      measured before the trim. */
  function NotesChain(raw: string): (errs: seq<FieldError>)
    ensures errs == [] <==> |raw| <= 1000
    ensures errs != [] ==> errs == [Err(ProfessionalNotes, NotesMaxLength)]
  {
    Optional(raw, Check(|raw| <= 1000, ProfessionalNotes, NotesMaxLength))
  }

  function ImageUrlChain(lib: Oracles.Lib, raw: string): (errs: seq<FieldError>)
    ensures errs == [] <==> raw == "" || lib.isURL(raw)
    ensures errs != [] ==> errs == [Err(ImageUrl, UrlInvalidFormat)]
  {
    Optional(raw, Check(lib.isURL(raw), ImageUrl, UrlInvalidFormat))
  }

  /** `createProfessionalValidation` */
  function CreateErrors(db: Db, lib: Oracles.Lib, f: Form): (errs: seq<FieldError>)
    ensures errs == [] <==>
      && LengthIn(Trim(f.firstName), 2, 50) && LengthIn(Trim(f.lastName), 2, 50)
      && |Trim(f.profession)| >= 2 && |f.specialty| <= 100
      && EmailChain(db, lib, None, f.email) == []
      && DniChain(db.professionals, None, f.dni) == []
      && (f.licence == "" || Alphanumeric(f.licence))
      && (f.imageUrl == "" || lib.isURL(f.imageUrl))
  {
    var names := NameChain(FirstName, f.firstName) + NameChain(LastName, f.lastName);
    var work := ProfessionChain(f.profession) + SpecialtyChain(f.specialty);
    var keys := EmailChain(db, lib, None, f.email) + DniChain(db.professionals, None, f.dni);
    var extra := LicenceChain(f.licence) + ImageUrlChain(lib, f.imageUrl);
    NoneOf4(names, work, keys, extra);
    NoneOf2(NameChain(FirstName, f.firstName), NameChain(LastName, f.lastName));
    NoneOf2(ProfessionChain(f.profession), SpecialtyChain(f.specialty));
    NoneOf2(EmailChain(db, lib, None, f.email), DniChain(db.professionals, None, f.dni));
    NoneOf2(LicenceChain(f.licence), ImageUrlChain(lib, f.imageUrl));
    names + work + keys + extra
  }

  /** `updateProfessionalValidation`: the `:id` check, the same fields with
      the edited professional skipped in the lookups, and the notes. */
  function UpdateErrors(db: Db, lib: Oracles.Lib, id: Id, f: Form): (errs: seq<FieldError>)
    ensures errs == [] <==>
      && ObjectId(id)
      && LengthIn(Trim(f.firstName), 2, 50) && LengthIn(Trim(f.lastName), 2, 50)
      && |Trim(f.profession)| >= 2 && |f.specialty| <= 100
      && EmailChain(db, lib, Some(id), f.email) == []
      && DniChain(db.professionals, Some(id), f.dni) == []
      && (f.licence == "" || Alphanumeric(f.licence))
      && |f.professionalNotes| <= 1000
      && (f.imageUrl == "" || lib.isURL(f.imageUrl))
  {
    Check(ObjectId(id), IdParam, IdInvalidFormat)
    + NameChain(FirstName, f.firstName) + NameChain(LastName, f.lastName)
    + ProfessionChain(f.profession) + SpecialtyChain(f.specialty)
    + EmailChain(db, lib, Some(id), f.email)
    + DniChain(db.professionals, Some(id), f.dni)
    + LicenceChain(f.licence) + NotesChain(f.professionalNotes) + ImageUrlChain(lib, f.imageUrl)
  }

  /** `professionalIdValidation` */
  function IdErrors(id: Id): (errs: seq<FieldError>)
    ensures errs == [] <==> ObjectId(id)
    ensures AllOn(errs, IdParam)
  {
    Check(ObjectId(id), IdParam, IdInvalidFormat)
  }

  /** The update body after the sanitizers: names, profession, email and
      dni trimmed; notes trimmed then HTML-escaped unless empty. */
  function Sanitized(lib: Oracles.Lib, f: Form): (g: Form)
    ensures g.specialty == f.specialty && g.licence == f.licence && g.imageUrl == f.imageUrl
    ensures f.professionalNotes == "" ==> g.professionalNotes == ""
  {
    f.(firstName := Trim(f.firstName), lastName := Trim(f.lastName), profession := Trim(f.profession),
       email := Trim(f.email), dni := Trim(f.dni),
       professionalNotes := if f.professionalNotes == "" then "" else lib.escape(Trim(f.professionalNotes)))
  }

  // ---------------------------------------------------------------------
  // Properties

  /** Unlike a patient's, a professional's name may hold any characters:
      a name of digits alone passes. */
  lemma NamesAnyCharacters(field: Name, s: string)
    requires AllDigits(s) && 2 <= |s| <= 50
    ensures NameChain(field, s) == []
  {
    assert NoWhite(s) by {
      forall i | 0 <= i < |s| ensures !IsWhite(s[i]) {
        assert IsDigit(s[i]);
      }
    }
    TrimOfNoWhite(s);
  }

  /** A specialty over 100 characters is reported as NAME_MIN_LENGTH. */
  lemma LongSpecialtyCode(raw: string)
    requires |raw| > 100
    ensures SpecialtyChain(raw) == [Err(Specialty, NameMinLength)]
  {
  }

  /** Notes are measured before trimming: padding that would be trimmed
      away still counts against the 1000 limit. */
  lemma NotesMeasuredBeforeTrim(s: string)
    requires |s| == 1000
    ensures NotesChain(s) == []
    ensures NotesChain(" " + s) == [Err(ProfessionalNotes, NotesMaxLength)]
  {
  }

  /** On create, a User holding the email blocks the professional; on
      update only another professional does. */
  lemma UserEmailBlocksOnlyCreate(db: Db, lib: Oracles.Lib, id: Id, raw: string)
    requires Trim(raw) != "" && lib.isEmail(Trim(raw))
    requires UserWithEmail(db.users, Trim(Lower(Trim(raw))))
    requires forall k | k in db.professionals :: db.professionals[k].email != Trim(Lower(Trim(raw)))
    ensures Err(Email, UserAlreadyExists) in EmailChain(db, lib, None, raw)
    ensures EmailChain(db, lib, Some(id), raw) == []
  {
    var v := Trim(raw);
    assert CheckEmailExists(db, v) == [Err(Email, UserAlreadyExists)];
  }
}
