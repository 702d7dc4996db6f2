/** The express-validator chains for creating and updating a patient
    (`patient.validators.js`), with the uniqueness lookups they make against
    the Patient and User collections.  Each chain trims where the source
    trims, runs every validator, and reports one error per failing one. */
module PatientRules {
  import opened Common
  import opened Envelope
  import opened Patterns
  import opened Chains
  import opened Records
  import Oracles
  import Dni

  /** The body fields the chains read; a missing field reads as "". */
  datatype Form = Form(
    firstName: string, lastName: string, email: string, phone: string, dni: string,
    birthDate: string, gender: string, street: string, city: string, postalCode: string,
    nationality: string, emergencyContact: string, imageUrl: string)

  // ---------------------------------------------------------------------
  // Uniqueness lookups; `except` is the `_id: {$ne: id}` of the update chains

  predicate EmailTaken(patients: map<Id, PatientRecord>, except: Option<Id>, key: string)
  {
    exists id | id in patients && Some(id) != except :: patients[id].email == key
  }

  predicate PhoneTaken(patients: map<Id, PatientRecord>, except: Option<Id>, key: string)
  {
    exists id | id in patients && Some(id) != except :: patients[id].phone == key
  }

  predicate DniTaken(patients: map<Id, PatientRecord>, except: Option<Id>, key: string)
  {
    exists id | id in patients && Some(id) != except :: patients[id].dni == key
  }

  /** `checkEmailExists`: the lower-cased, trimmed value must belong to no
      Patient (EMAIL_ALREADY_EXISTS) and, failing that, to no User
      (USER_ALREADY_EXISTS).  Inactive patients count too. */
  function CheckEmailExists(db: Db, value: string): (errs: seq<FieldError>)
    ensures var key := Trim(Lower(value));
      errs == [] <==> !EmailTaken(db.patients, None, key) && !UserWithEmail(db.users, key)
    ensures EmailTaken(db.patients, None, Trim(Lower(value))) ==> errs == [Err(Email, EmailAlreadyExists)]
    ensures !EmailTaken(db.patients, None, Trim(Lower(value))) && UserWithEmail(db.users, Trim(Lower(value)))
      ==> errs == [Err(Email, UserAlreadyExists)]
  {
    var key := Trim(Lower(value));
    if EmailTaken(db.patients, None, key) then [Err(Email, EmailAlreadyExists)]
    else if UserWithEmail(db.users, key) then [Err(Email, UserAlreadyExists)]
    else []
  }

  /** `checkPhoneExists` */
  function CheckPhoneExists(patients: map<Id, PatientRecord>, except: Option<Id>, value: string): (errs: seq<FieldError>)
    ensures errs == [] <==> !PhoneTaken(patients, except, Trim(value))
    ensures errs != [] ==> errs == [Err(Phone, PhoneAlreadyExists)]
  {
    Check(!PhoneTaken(patients, except, Trim(value)), Phone, PhoneAlreadyExists)
  }

  /** `checkDniExists` */
  function CheckDniExists(patients: map<Id, PatientRecord>, except: Option<Id>, value: string): (errs: seq<FieldError>)
    ensures errs == [] <==> !DniTaken(patients, except, Trim(value))
    ensures errs != [] ==> errs == [Err(Dni, DniAlreadyExists)]
  {
    Check(!DniTaken(patients, except, Trim(value)), Dni, DniAlreadyExists)
  }

  // ---------------------------------------------------------------------
  // Field chains.  The `isString` step of the name chains comes after
  // `trim`, which has already turned the value into a string, so it never
  // reports.

  predicate NameOk(raw: string)
  {
    var v := Trim(raw);
    LengthIn(v, 2, 50) && OneOrMore(v, NameChar)
  }

  function NameChain(field: Name, raw: string): (errs: seq<FieldError>)
    ensures errs == [] <==> NameOk(raw)
    ensures forall e | e in errs ::
      e.field == field && e.code in {FormFieldsRequired, NameMinLength, NameInvalidCharacters}
  {
    var v := Trim(raw);
    Check(v != "", field, FormFieldsRequired)
    + Check(LengthIn(v, 2, 50), field, NameMinLength)
    + Check(OneOrMore(v, NameChar), field, NameInvalidCharacters)
  }

  /** The create-time email chain. */
  function EmailCreateChain(db: Db, lib: Oracles.Lib, raw: string): (errs: seq<FieldError>)
    ensures var v := Trim(raw);
      errs == [] <==>
        v != "" && lib.isEmail(v)
        && !EmailTaken(db.patients, None, Trim(Lower(v))) && !UserWithEmail(db.users, Trim(Lower(v)))
    ensures AllOn(errs, Email)
  {
    var v := Trim(raw);
    var a := Check(v != "", Email, FormFieldsRequired);
    var b := Check(lib.isEmail(v), Email, EmailInvalidFormat);
    var c := CheckEmailExists(db, v);
    Concat3(a, b, c, Email);
    a + b + c
  }

  /** The update-time email chain: only Patients are searched, and the one
      being edited is skipped. */
  function EmailUpdateChain(db: Db, lib: Oracles.Lib, id: Id, raw: string): (errs: seq<FieldError>)
    ensures var v := Trim(raw);
      errs == [] <==> v != "" && lib.isEmail(v) && !EmailTaken(db.patients, Some(id), Trim(Lower(v)))
    ensures AllOn(errs, Email)
  {
    var v := Trim(raw);
    var a := Check(v != "", Email, FormFieldsRequired);
    var b := Check(lib.isEmail(v), Email, EmailInvalidFormat);
    var c := Check(!EmailTaken(db.patients, Some(id), Trim(Lower(v))), Email, EmailAlreadyExists);
    Concat3(a, b, c, Email);
    a + b + c
  }

  /** Phone: `^\+?[1-9]\d{1,14}$` on create, `^\+?\d{7,15}$` on update. */
  predicate PhoneFormat(except: Option<Id>, v: string)
  {
    if except.None? then E164(v) else PlusDigits(v, 7, 15)
  }

  function PhoneChain(patients: map<Id, PatientRecord>, except: Option<Id>, raw: string): (errs: seq<FieldError>)
    ensures var v := Trim(raw);
      errs == [] <==>
        v != "" && PhoneFormat(except, v) && !PhoneTaken(patients, except, v)
    ensures AllOn(errs, Phone)
  {
    var v := Trim(raw);
    TrimIdempotent(raw);
    var a := Check(v != "", Phone, FormFieldsRequired);
    var b := Check(PhoneFormat(except, v), Phone, PhoneInvalidFormat);
    var c := CheckPhoneExists(patients, except, v);
    Concat3(a, b, c, Phone);
    a + b + c
  }

  function DniChain(patients: map<Id, PatientRecord>, except: Option<Id>, raw: string): (errs: seq<FieldError>)
    ensures var v := Trim(raw);
      errs == [] <==> v != "" && Dni.NifValido(v) && !DniTaken(patients, except, v)
    ensures AllOn(errs, Dni)
  {
    var v := Trim(raw);
    TrimIdempotent(raw);
    var a := Check(v != "", Dni, FormFieldsRequired);
    var b := ValidateDni(v);
    var c := CheckDniExists(patients, except, v);
    Concat3(a, b, c, Dni);
    a + b + c
  }

  /** birthDate is not trimmed; a date that does not parse slips past the
      custom check, since comparisons with NaN are false. */
  function BirthDateChain(lib: Oracles.Lib, now: int, raw: string): (errs: seq<FieldError>)
    ensures errs == [] <==> raw != "" && lib.isISO8601(raw) && !Oracles.AtOrAfter(lib.parseDate(raw), now)
    ensures AllOn(errs, BirthDate)
  {
    Check(raw != "", BirthDate, FormFieldsRequired)
    + Check(lib.isISO8601(raw), BirthDate, BirthdateInvalid)
    + Check(!Oracles.AtOrAfter(lib.parseDate(raw), now), BirthDate, BirthdateInvalid)
  }

  const Genders: seq<string> := ["male", "female", "non-binary"]

  function GenderChain(raw: string): (errs: seq<FieldError>)
    ensures errs == [] <==> raw in Genders
    ensures AllOn(errs, Gender)
  {
    Check(raw != "", Gender, FormFieldsRequired) + Check(raw in Genders, Gender, GenderInvalid)
  }

  /** A trimmed text field with a length range and a character class, both
      reported under one code. */
  function ClassChain(field: Name, raw: string, max: nat, inClass: char -> bool, code: Code): (errs: seq<FieldError>)
    ensures var v := Trim(raw); errs == [] <==> LengthIn(v, 2, max) && OneOrMore(v, inClass)
    ensures AllOn(errs, field)
  {
    var v := Trim(raw);
    Check(v != "", field, FormFieldsRequired)
    + Check(LengthIn(v, 2, max), field, code)
    + Check(OneOrMore(v, inClass), field, code)
  }

  function PostalCodeChain(raw: string): (errs: seq<FieldError>)
    ensures errs == [] <==> FiveDigits(Trim(raw))
    ensures AllOn(errs, PostalCode)
  {
    var v := Trim(raw);
    Check(v != "", PostalCode, FormFieldsRequired) + Check(FiveDigits(v), PostalCode, PostalCodeInvalidFormat)
  }

  function EmergencyContactChain(raw: string): (errs: seq<FieldError>)
    ensures errs == [] <==> PlusDigits(Trim(raw), 7, 15)
    ensures AllOn(errs, EmergencyContact)
  {
    var v := Trim(raw);
    Check(v != "", EmergencyContact, FormFieldsRequired)
    + Check(PlusDigits(v, 7, 15), EmergencyContact, EmergencyContactInvalid)
  }

  /** imageUrl is optional: an empty value passes. */
  function ImageUrlChain(lib: Oracles.Lib, raw: string): (errs: seq<FieldError>)
    ensures errs == [] <==> raw == "" || lib.isURL(raw)
    ensures AllOn(errs, ImageUrl)
  {
    Optional(raw, Check(lib.isURL(raw), ImageUrl, UrlInvalidFormat))
  }

  /** The chains every patient form shares, create or update, after names,
      email, phone and dni. */
  function RestChains(lib: Oracles.Lib, now: int, f: Form): (errs: seq<FieldError>)
    ensures errs == [] <==>
      && BirthDateChain(lib, now, f.birthDate) == [] && f.gender in Genders
      && LengthIn(Trim(f.street), 2, 100) && OneOrMore(Trim(f.street), StreetChar)
      && LengthIn(Trim(f.city), 2, 50) && OneOrMore(Trim(f.city), CityChar)
      && FiveDigits(Trim(f.postalCode))
      && LengthIn(Trim(f.nationality), 2, 50) && OneOrMore(Trim(f.nationality), NationalityChar)
      && PlusDigits(Trim(f.emergencyContact), 7, 15)
      && (f.imageUrl == "" || lib.isURL(f.imageUrl))
  {
    BirthDateChain(lib, now, f.birthDate)
    + GenderChain(f.gender)
    + ClassChain(Street, f.street, 100, StreetChar, StreetInvalidFormat)
    + ClassChain(City, f.city, 50, CityChar, CityInvalidFormat)
    + PostalCodeChain(f.postalCode)
    + ClassChain(Nationality, f.nationality, 50, NationalityChar, NationalityInvalid)
    + EmergencyContactChain(f.emergencyContact)
    + ImageUrlChain(lib, f.imageUrl)
  }

  /** `createPatientValidation`, every chain in declaration order. */
  function CreateErrors(db: Db, lib: Oracles.Lib, now: int, f: Form): (errs: seq<FieldError>)
    ensures errs == [] <==>
      && NameOk(f.firstName) && NameOk(f.lastName)
      && EmailCreateChain(db, lib, f.email) == []
      && PhoneChain(db.patients, None, f.phone) == []
      && DniChain(db.patients, None, f.dni) == []
      && RestChains(lib, now, f) == []
  {
    NameChain(FirstName, f.firstName) + NameChain(LastName, f.lastName)
    + EmailCreateChain(db, lib, f.email)
    + PhoneChain(db.patients, None, f.phone)
    + DniChain(db.patients, None, f.dni)
    + RestChains(lib, now, f)
  }

  /** `updatePatientValidation`: the `:id` check first (no trim), then the
      same fields with the update-time email, phone and dni rules. */
  function UpdateErrors(db: Db, lib: Oracles.Lib, now: int, id: Id, f: Form): (errs: seq<FieldError>)
    ensures errs == [] <==>
      && ObjectId(id) && NameOk(f.firstName) && NameOk(f.lastName)
      && EmailUpdateChain(db, lib, id, f.email) == []
      && PhoneChain(db.patients, Some(id), f.phone) == []
      && DniChain(db.patients, Some(id), f.dni) == []
      && RestChains(lib, now, f) == []
  {
    Check(ObjectId(id), IdParam, IdInvalidFormat)
    + NameChain(FirstName, f.firstName) + NameChain(LastName, f.lastName)
    + EmailUpdateChain(db, lib, id, f.email)
    + PhoneChain(db.patients, Some(id), f.phone)
    + DniChain(db.patients, Some(id), f.dni)
    + RestChains(lib, now, f)
  }

  /** `patientIdValidation` */
  function IdErrors(id: Id): (errs: seq<FieldError>)
    ensures errs == [] <==> ObjectId(id)
    ensures forall e | e in errs :: e == Err(IdParam, IdInvalidFormat)
  {
    Check(ObjectId(id), IdParam, IdInvalidFormat)
  }

  /** The body after the chains' `trim` sanitizers, which write back. */
  function Sanitized(f: Form): Form
  {
    f.(firstName := Trim(f.firstName), lastName := Trim(f.lastName), email := Trim(f.email),
       phone := Trim(f.phone), dni := Trim(f.dni), street := Trim(f.street), city := Trim(f.city),
       postalCode := Trim(f.postalCode), nationality := Trim(f.nationality),
       emergencyContact := Trim(f.emergencyContact))
  }

  // ---------------------------------------------------------------------
  // Properties

  /** Chains do not bail: a blank name collects all three of its errors. */
  lemma BlankNameReportsThree(field: Name, raw: string)
    requires Trim(raw) == ""
    ensures NameChain(field, raw) ==
      [Err(field, FormFieldsRequired), Err(field, NameMinLength), Err(field, NameInvalidCharacters)]
  {
  }

  /** Validation is unchanged by the trimming it performs itself: the
      sanitized body passes exactly when the raw one does. */
  lemma SanitizedStillValid(db: Db, lib: Oracles.Lib, now: int, f: Form)
    ensures CreateErrors(db, lib, now, Sanitized(f)) == [] <==> CreateErrors(db, lib, now, f) == []
  {
    var g := Sanitized(f);
    TrimIdempotent(f.firstName); TrimIdempotent(f.lastName); TrimIdempotent(f.email);
    TrimIdempotent(f.phone); TrimIdempotent(f.dni); TrimIdempotent(f.street);
    TrimIdempotent(f.city); TrimIdempotent(f.postalCode); TrimIdempotent(f.nationality);
    TrimIdempotent(f.emergencyContact);
    assert RestChains(lib, now, g) == [] <==> RestChains(lib, now, f) == [];
  }

  /** On create, an email already held by a Patient is reported as
      EMAIL_ALREADY_EXISTS even if a User holds it too; one held only by a
      User is USER_ALREADY_EXISTS. */
  lemma CreateEmailClash(db: Db, lib: Oracles.Lib, raw: string, pid: Id)
    requires pid in db.patients && db.patients[pid].email == Trim(Lower(Trim(raw)))
    ensures Err(Email, EmailAlreadyExists) in EmailCreateChain(db, lib, raw)
    ensures Err(Email, UserAlreadyExists) !in EmailCreateChain(db, lib, raw)
  {
    var v := Trim(raw);
    var key := Trim(Lower(v));
    assert EmailTaken(db.patients, None, key) by {
      assert pid in db.patients && Some(pid) != None && db.patients[pid].email == key;
    }
    var a := Check(v != "", Email, FormFieldsRequired);
    var b := Check(lib.isEmail(v), Email, EmailInvalidFormat);
    assert EmailCreateChain(db, lib, raw) == a + b + [Err(Email, EmailAlreadyExists)];
    assert Err(Email, UserAlreadyExists) !in a && Err(Email, UserAlreadyExists) !in b;
  }

  /** On update, the patient being edited may keep its own email, phone and
      dni, and a User holding the email does not matter. */
  lemma UpdateSkipsSelf(db: Db, lib: Oracles.Lib, id: Id, f: Form)
    requires forall k | k in db.patients && k != id :: db.patients[k].email != Trim(Lower(Trim(f.email)))
    requires forall k | k in db.patients && k != id :: db.patients[k].phone != Trim(f.phone)
    requires forall k | k in db.patients && k != id :: db.patients[k].dni != Trim(f.dni)
    ensures !EmailTaken(db.patients, Some(id), Trim(Lower(Trim(f.email))))
    ensures !PhoneTaken(db.patients, Some(id), Trim(f.phone))
    ensures !DniTaken(db.patients, Some(id), Trim(f.dni))
  {
    var email, phone, dni := Trim(Lower(Trim(f.email))), Trim(f.phone), Trim(f.dni);
    forall k | k in db.patients && Some(k) != Some(id)
      ensures db.patients[k].email != email && db.patients[k].phone != phone && db.patients[k].dni != dni
    {
      assert k != id;
    }
  }

  /** The same email fails the create chain but passes the update chain when
      only the edited patient or a User holds it. */
  lemma EmailOfUserOnlyBlocksCreate(db: Db, lib: Oracles.Lib, id: Id, raw: string)
    requires Trim(raw) != "" && lib.isEmail(Trim(raw))
    requires UserWithEmail(db.users, Trim(Lower(Trim(raw))))
    requires forall k | k in db.patients :: db.patients[k].email != Trim(Lower(Trim(raw)))
    ensures EmailCreateChain(db, lib, raw) == [Err(Email, UserAlreadyExists)]
    ensures EmailUpdateChain(db, lib, id, raw) == []
  {
  }

  /** A birth date that parses is accepted iff it is ISO 8601 and strictly
      before now; equal to now is refused. */
  lemma BirthDateStrictlyPast(lib: Oracles.Lib, now: int, raw: string, t: int)
    requires lib.parseDate(raw) == Some(t)
    ensures BirthDateChain(lib, now, raw) == [] <==> raw != "" && lib.isISO8601(raw) && t < now
  {
  }

  /** An empty imageUrl passes, whatever `isURL` says of it. */
  lemma EmptyImageAllowed(lib: Oracles.Lib)
    ensures ImageUrlChain(lib, "") == []
  {
  }
}
