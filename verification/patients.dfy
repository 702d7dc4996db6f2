/** The patient handlers (`patients.controller.js`): creation provisions a
    login for the patient, lists and lookups see active records only, an
    update re-normalises the fields, and a delete only deactivates.  The
    handlers run after the validators, so the body they get is the
    validated, trimmed form. */
module Patients {
  import opened Common
  import opened Envelope
  import opened Records
  import opened AuthMiddleware
  import PatientRules
  import PatientSchema
  import Patterns
  import Sessions
  import Oracles

  /** `credentials: {email, defaultPassword}` of the create answer. */
  datatype Credentials = Credentials(email: string, defaultPassword: string)

  /** `{patient, authCreated, credentials}` */
  datatype Created = Created(patient: PatientRecord, authCreated: bool, credentials: Credentials)

  /** The stored patient: the schema lower-cases the email and trims the
      phone; an empty `imageUrl` is left out, so the schema default applies;
      new documents are active. */
  function NewRecord(lib: Oracles.Lib, f: PatientRules.Form, userId: Option<Id>): (p: PatientRecord)
    ensures p.active && p.userId == userId && IsLowerCased(p.email)
    ensures p.imageUrl == if f.imageUrl == "" then PatientSchema.DefaultImageUrl else f.imageUrl
    ensures p.dni == f.dni && p.email == Lower(f.email) && p.birthDate == lib.parseDate(f.birthDate)
  {
    LowerIsLowerCased(f.email);
    PatientRecord(f.firstName, f.lastName, Lower(f.email), Trim(f.phone), lib.parseDate(f.birthDate),
      f.dni, f.gender, f.street, f.city, f.postalCode, f.nationality, f.emergencyContact,
      if f.imageUrl != "" then f.imageUrl else PatientSchema.DefaultImageUrl,
      userId, true)
  }

  /** The login provisioned for a new patient: password the hashed dni. */
  function PatientUser(crypto: Crypto, f: PatientRules.Form, patientId: Id, userId: Id): (u: UserRecord)
    ensures u.id == userId && u.role == Patient && u.profileId == Some(patientId)
    ensures u.profileModel == Some(Patient) && u.password == crypto.hash(f.dni) && u.email == f.email
  {
    UserRecord(userId, f.email, crypto.hash(f.dni), Patient, Some(patientId), Some(Patient), true)
  }

  /** `postNewPatient`: create the patient, then its user, then link the
      user back.  `patientId` and `userId` are the ids the database
      assigns. */
  function Create(db: Db, lib: Oracles.Lib, crypto: Crypto, f: PatientRules.Form, patientId: Id, userId: Id)
    : (r: (Reply<Created>, Db))
    requires patientId !in db.patients
    requires forall j | 0 <= j < |db.users| :: db.users[j].id != userId
    ensures r.0.status == 201 && CodeOf(r.0.body) == Some(PatientCreated)
    ensures r.1.patients.Keys == db.patients.Keys + {patientId}
    ensures forall id | id in db.patients :: r.1.patients[id] == db.patients[id]
    ensures |r.1.users| == |db.users| + 1 && r.1.users[..|db.users|] == db.users
    ensures r.1.professionals == db.professionals && r.1.appointments == db.appointments
    ensures var p := r.1.patients[patientId]; var u := r.1.users[|db.users|];
      && p.userId == Some(u.id) && u.id == userId && u.profileId == Some(patientId)
      && u.role == Patient && u.profileModel == Some(Patient) && u.isActive
      && u.password == crypto.hash(f.dni)
      && p.active && p.dni == f.dni && p.email == Lower(f.email)
    ensures r.0.body.Ok? && r.0.body.data.patient == r.1.patients[patientId]
      && r.0.body.data.authCreated
      && r.0.body.data.credentials == Credentials(f.email, f.dni)
  {
    var user := PatientUser(crypto, f, patientId, userId);
    var patient := NewRecord(lib, f, Some(userId));
    var after := db.(patients := db.patients[patientId := patient], users := db.users + [user]);
    Added(db, patientId, patient, user);
    (Success(Created(patient, true, Credentials(user.email, f.dni)), PatientCreated, 201), after)
  }

  /** Adding a patient and a user keeps every other record. */
  lemma Added(db: Db, id: Id, p: PatientRecord, u: UserRecord)
    requires id !in db.patients
    ensures var after := db.(patients := db.patients[id := p], users := db.users + [u]);
      && after.patients.Keys == db.patients.Keys + {id}
      && (forall k | k in db.patients :: after.patients[k] == db.patients[k])
      && |after.users| == |db.users| + 1 && after.users[..|db.users|] == db.users
      && after.users[|db.users|] == u && after.patients[id] == p
  {
    assert (db.users + [u])[..|db.users|] == db.users;
  }

  /** The active records, keyed by id. */
  function ActiveOnly(patients: map<Id, PatientRecord>): (m: map<Id, PatientRecord>)
    ensures forall id :: id in m <==> id in patients && patients[id].active
    ensures forall id | id in m :: m[id] == patients[id]
  {
    map id | id in patients && patients[id].active :: patients[id]
  }

  /** `getAllPatients`: `find({active: true})`. */
  function List(db: Db): (r: Reply<map<Id, PatientRecord>>)
    ensures r == Success(ActiveOnly(db.patients), PatientsRetrieved, 200)
  {
    Success(ActiveOnly(db.patients), PatientsRetrieved)
  }

  /** `getPatientById`: `findOne({_id: id, active: true})`. */
  function Get(db: Db, id: Id): (r: Reply<PatientRecord>)
    ensures r.status == 200 <==> id in db.patients && db.patients[id].active
    ensures r.status == 200 ==> r == Success(db.patients[id], PatientRetrieved, 200)
    ensures r.status != 200 ==> r == Error(PatientNotFound, 404)
  {
    if id in db.patients && db.patients[id].active then Success(db.patients[id], PatientRetrieved, 200)
    else Error(PatientNotFound, 404)
  }

  /** The update the handler writes: text fields trimmed, the email also
      lower-cased, gender and nationality as given, the image only when
      one is given. */
  function Updated(lib: Oracles.Lib, prev: PatientRecord, f: PatientRules.Form): (p: PatientRecord)
    ensures p.userId == prev.userId && p.active == prev.active
    ensures IsLowerCased(p.email) && p.email == Lower(Trim(f.email))
    ensures p.firstName == Trim(f.firstName) && p.lastName == Trim(f.lastName) && p.dni == Trim(f.dni)
    ensures p.gender == f.gender && p.nationality == f.nationality
    ensures f.imageUrl == "" ==> p.imageUrl == prev.imageUrl
    ensures f.imageUrl != "" ==> p.imageUrl == Trim(f.imageUrl)
  {
    LowerIsLowerCased(Trim(f.email));
    prev.(firstName := Trim(f.firstName), lastName := Trim(f.lastName),
      email := Lower(Trim(f.email)), phone := Trim(f.phone),
      birthDate := lib.parseDate(f.birthDate), dni := Trim(f.dni), gender := f.gender,
      street := Trim(f.street), city := Trim(f.city), postalCode := Trim(f.postalCode),
      nationality := f.nationality, emergencyContact := Trim(f.emergencyContact),
      imageUrl := if f.imageUrl != "" then Trim(f.imageUrl) else prev.imageUrl)
  }

  /** `updatePatient`: `findById` does not look at `active`, so an inactive
      patient can still be edited. */
  function Update(db: Db, lib: Oracles.Lib, id: Id, f: PatientRules.Form): (r: (Reply<PatientRecord>, Db))
    ensures r.0.status == 200 <==> id in db.patients
    ensures r.0.status != 200 ==> r == (Error(PatientNotFound, 404), db)
    ensures r.0.status == 200 ==>
      && r.1 == db.(patients := db.patients[id := Updated(lib, db.patients[id], f)])
      && r.0 == Success(r.1.patients[id], PatientUpdated, 200)
  {
    if id !in db.patients then (Error(PatientNotFound, 404), db)
    else
      var p := Updated(lib, db.patients[id], f);
      (Success(p, PatientUpdated, 200), db.(patients := db.patients[id := p]))
  }

  /** `deletePatient`: a soft delete. */
  function Delete(db: Db, id: Id): (r: (Reply<PatientRecord>, Db))
    ensures r.0.status == 200 <==> id in db.patients
    ensures r.1.patients.Keys == db.patients.Keys
    ensures r.1.users == db.users && r.1.professionals == db.professionals && r.1.appointments == db.appointments
    ensures r.0.status != 200 ==> r == (Error(PatientNotFound, 404), db)
    ensures r.0.status == 200 ==>
      && !r.1.patients[id].active
      && r.1.patients[id].(active := db.patients[id].active) == db.patients[id]
      && (forall k | k in db.patients && k != id :: r.1.patients[k] == db.patients[k])
      && r.0 == Success(r.1.patients[id], PatientDeleted, 200)
  {
    if id !in db.patients then (Error(PatientNotFound, 404), db)
    else
      var p := db.patients[id].(active := false);
      (Success(p, PatientDeleted, 200), db.(patients := db.patients[id := p]))
  }

  // ---------------------------------------------------------------------
  // Properties

  /** The patient and its user name each other. */
  lemma CreateLinksBothWays(db: Db, lib: Oracles.Lib, crypto: Crypto, f: PatientRules.Form, patientId: Id, userId: Id)
    requires patientId !in db.patients
    requires forall j | 0 <= j < |db.users| :: db.users[j].id != userId
    ensures var after := Create(db, lib, crypto, f, patientId, userId).1;
      && after.patients[patientId].userId == Some(userId)
      && UserById(after.users, userId).Some?
      && UserById(after.users, userId).value.profileId == Some(patientId)
      && Populated(after, UserById(after.users, userId).value) == Some(patientId)
  {
    var after := Create(db, lib, crypto, f, patientId, userId).1;
    var u := after.users[|db.users|];
    assert u in after.users;
    var found := UserById(after.users, userId);
    assert found.Some?;
    assert found.value == u;
  }

  /** A new patient logs in with the email and the dni as password (the
      controller's own handler, not only the guarded one), provided bcrypt
      accepts the dni against its hash and no active user already has that
      email. */
  lemma NewPatientLogsIn(db: Db, lib: Oracles.Lib, crypto: Crypto, f: PatientRules.Form, patientId: Id, userId: Id)
    requires patientId !in db.patients
    requires forall j | 0 <= j < |db.users| :: db.users[j].id != userId
    requires f.email != "" && f.dni != ""
    requires crypto.compare(f.dni, crypto.hash(f.dni))
    requires forall j | 0 <= j < |db.users| :: !(db.users[j].email == f.email && db.users[j].isActive)
    ensures Sessions.Login(Create(db, lib, crypto, f, patientId, userId).1, crypto, f.email, f.dni).status == 200
  {
    var after := Create(db, lib, crypto, f, patientId, userId).1;
    var k := Sessions.ActiveUser(after.users, f.email);
    assert after.users[|db.users|].email == f.email && after.users[|db.users|].isActive;
    assert k.Some?;
    assert k.value == |db.users|;
  }

  /** A deleted patient disappears from the list and from lookups, yet its
      record is kept. */
  lemma DeletedIsHidden(db: Db, id: Id)
    requires id in db.patients
    ensures var after := Delete(db, id).1;
      id in after.patients && id !in ActiveOnly(after.patients) && Get(after, id) == Error(PatientNotFound, 404)
  {
  }

  /** Deleting twice is deleting once: both answer 200 and the store ends
      the same. */
  lemma DeleteIdempotent(db: Db, id: Id)
    requires id in db.patients
    ensures Delete(Delete(db, id).1, id).0.status == 200
    ensures Delete(Delete(db, id).1, id).1 == Delete(db, id).1
  {
    var once := Delete(db, id).1;
    assert once.patients[id].(active := false) == once.patients[id];
    assert once.patients[id := once.patients[id]] == once.patients;
  }

  /** A deleted patient can still be edited, and stays inactive. */
  lemma EditAfterDelete(db: Db, lib: Oracles.Lib, id: Id, f: PatientRules.Form)
    requires id in db.patients
    ensures var r := Update(Delete(db, id).1, lib, id, f);
      r.0.status == 200 && !r.1.patients[id].active
  {
  }

  /** The handler's trimming repeats the validators': a body the
      validators sanitized is stored exactly as the raw one would be, except
      the nationality, which only the validators trim. */
  lemma RetrimHarmless(db: Db, lib: Oracles.Lib, id: Id, f: PatientRules.Form)
    requires id in db.patients
    ensures var raw := Update(db, lib, id, f).1.patients[id];
      Update(db, lib, id, PatientRules.Sanitized(f)).1.patients[id] == raw.(nationality := Trim(f.nationality))
  {
    RetrimRecord(lib, db.patients[id], f);
  }

  /** The record-level half of `RetrimHarmless`. */
  lemma RetrimRecord(lib: Oracles.Lib, prev: PatientRecord, f: PatientRules.Form)
    ensures Updated(lib, prev, PatientRules.Sanitized(f)) == Updated(lib, prev, f).(nationality := Trim(f.nationality))
  {
    TrimIdempotent(f.firstName); TrimIdempotent(f.lastName); TrimIdempotent(f.email);
    TrimIdempotent(f.phone); TrimIdempotent(f.dni); TrimIdempotent(f.street);
    TrimIdempotent(f.city); TrimIdempotent(f.postalCode); TrimIdempotent(f.emergencyContact);
  }

  /** The create validator and the schema disagree on phones: `+12` passes
      the create chain's E.164 pattern but not the schema's 7 to 15 digits,
      so `save` refuses a patient whose phone the validators let through. */
  lemma CreatePhoneOutsideSchema(db: Db, store: map<string, PatientSchema.Doc>, id: string,
                                 i: PatientSchema.Input, lib: Oracles.Lib, phone: string)
    requires phone == "+12" && i.phone == Some(phone) && id !in store
    requires !PatientRules.PhoneTaken(db.patients, None, phone)
    ensures PatientRules.PhoneChain(db.patients, None, phone) == []
    ensures PatientSchema.Save(store, id, i, lib).Refused?
  {
    Patterns.PhonePatternsDiffer(phone, "0123456");
    assert NoWhite(phone);
    TrimOfNoWhite(phone);
    PatientSchema.PhoneRule(i, lib);
  }
}
