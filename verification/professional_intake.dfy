/** The older professional creator (`addProfessional` in
    `professionalsControllers.js`): it checks the body itself, collecting
    every problem, looks the email and dni up, and only then creates the
    professional and its login.  A truthy value that is not a string where
    it calls `.trim()` or `.toUpperCase()` throws, which its outer catch
    answers with 500. */
module ProfessionalIntake {
  import opened Common
  import opened Envelope
  import opened Patterns
  import opened Records
  import opened Chains
  import opened AuthMiddleware
  import Dni
  import EmailSyntax
  import Patients
  import Professionals
  import Sessions

  /** The body; `specialty` and `professionLicenceNumber` are strings, ""
      when absent. */
  datatype Body = Body(
    firstName: Field, lastName: Field, profession: Field, specialty: string,
    email: Field, dni: Field, licence: string)

  /** A non-empty string. */
  predicate Filled(v: Field) { v.Text? && v.s != "" }

  /** A truthy non-string where a string method is called: the names and
      the profession are trimmed, the dni upper-cased. */
  predicate Throws(b: Body)
  {
    b.firstName == Other(true) || b.lastName == Other(true)
    || b.profession == Other(true) || b.dni == Other(true)
  }

  /** A check that adds an entry with `meta`. */
  function CheckMeta(ok: bool, field: Name, code: Code, meta: Meta): (errs: seq<FieldError>)
    ensures ok <==> errs == []
    ensures !ok ==> errs == [FieldError(field, code, Some(meta))]
  {
    if ok then [] else [FieldError(field, code, Some(meta))]
  }

  predicate NameLengthOk(v: Field)
  {
    !Filled(v) || 2 <= JsLength(Trim(v.s)) <= 50
  }

  /** Three checks on distinct entries, concatenated: each entry is
      present exactly when its check fails. */
  function Checks3(a: bool, f1: Name, c1: Code, b: bool, f2: Name, c2: Code, c: bool, f3: Name, c3: Code)
    : (errs: seq<FieldError>)
    requires Err(f1, c1) != Err(f2, c2) && Err(f1, c1) != Err(f3, c3) && Err(f2, c2) != Err(f3, c3)
    ensures errs == [] <==> a && b && c
    ensures Err(f1, c1) in errs <==> !a
    ensures Err(f2, c2) in errs <==> !b
    ensures Err(f3, c3) in errs <==> !c
    ensures forall e | e in errs :: e.meta.None?
  {
    var x := Check(a, f1, c1);
    var y := Check(b, f2, c2);
    var z := Check(c, f3, c3);
    assert |x + y + z| == |x| + |y| + |z|;
    x + y + z
  }

  /** The presence checks: each name must be a non-empty string, the dni
      must be truthy. */
  function PresenceErrors(b: Body): (errs: seq<FieldError>)
    ensures errs == [] <==> Filled(b.firstName) && Filled(b.lastName) && b.dni.Truthy()
    ensures Err(FirstName, NameMustBeString) in errs <==> !Filled(b.firstName)
    ensures Err(LastName, NameMustBeString) in errs <==> !Filled(b.lastName)
    ensures Err(Name.Dni, FormFieldsRequired) in errs <==> !b.dni.Truthy()
    ensures forall e | e in errs :: e.meta.None?
  {
    Checks3(
      Filled(b.firstName), FirstName, NameMustBeString,
      Filled(b.lastName), LastName, NameMustBeString,
      b.dni.Truthy(), Name.Dni, FormFieldsRequired)
  }

  /** The name lengths, measured in UTF-16 units after trimming: 2 to 50,
      for the names that are non-empty strings. */
  function NameLengthErrors(b: Body): (errs: seq<FieldError>)
    ensures errs == [] <==> NameLengthOk(b.firstName) && NameLengthOk(b.lastName)
    ensures FieldError(FirstName, NameMinLength, Some(Bounds(2, 50))) in errs <==> !NameLengthOk(b.firstName)
    ensures FieldError(LastName, NameMinLength, Some(Bounds(2, 50))) in errs <==> !NameLengthOk(b.lastName)
  {
    var x := CheckMeta(NameLengthOk(b.firstName), FirstName, NameMinLength, Bounds(2, 50));
    var y := CheckMeta(NameLengthOk(b.lastName), LastName, NameMinLength, Bounds(2, 50));
    x + y
  }

  predicate ProfessionOk(v: Field)
  {
    Filled(v) && JsLength(Trim(v.s)) >= 2
  }

  /** The profession must be a string of at least 2 after trimming; the
      specialty, as given, at most 100. */
  function RoleLengthErrors(b: Body): (errs: seq<FieldError>)
    ensures errs == [] <==> ProfessionOk(b.profession) && JsLength(b.specialty) <= 100
    ensures FieldError(Profession, NameMinLength, Some(AtLeast(2))) in errs <==> !ProfessionOk(b.profession)
    ensures FieldError(Specialty, NameMinLength, Some(Bounds(0, 100))) in errs <==> JsLength(b.specialty) > 100
    ensures forall e | e in errs :: e.field != FirstName
  {
    var x := CheckMeta(ProfessionOk(b.profession), Profession, NameMinLength, AtLeast(2));
    var y := CheckMeta(JsLength(b.specialty) <= 100, Specialty, NameMinLength, Bounds(0, 100));
    x + y
  }

  /** The format checks: `validateEmail`, `nif_valido` and the licence
      pattern. */
  function FormatErrors(b: Body): (errs: seq<FieldError>)
    ensures errs == [] <==>
      EmailSyntax.ValidateEmail(b.email) && b.dni.Text? && Dni.NifValido(b.dni.s)
      && (b.licence == "" || Alphanumeric(b.licence))
    ensures Err(Email, EmailInvalidFormat) in errs <==> !EmailSyntax.ValidateEmail(b.email)
    ensures Err(Name.Dni, DniInvalidFormat) in errs <==> !(b.dni.Text? && Dni.NifValido(b.dni.s))
    ensures Err(LicenceNumber, NameInvalidCharacters) in errs <==> b.licence != "" && !Alphanumeric(b.licence)
    ensures forall e | e in errs :: e.meta.None?
    ensures errs == [] ==> b.email.Text? && b.dni.Text?
  {
    Checks3(
      EmailSyntax.ValidateEmail(b.email), Email, EmailInvalidFormat,
      b.dni.Text? && Dni.NifValido(b.dni.s), Name.Dni, DniInvalidFormat,
      b.licence == "" || Alphanumeric(b.licence), LicenceNumber, NameInvalidCharacters)
  }

  /** `Professional.findOne({email})`, for a string email. */
  predicate EmailInUse(db: Db, email: Field)
  {
    email.Text? && exists id | id in db.professionals :: db.professionals[id].email == email.s
  }

  /** `Professional.findOne({dni})`, for a string dni. */
  predicate DniInUse(db: Db, dni: Field)
  {
    dni.Text? && exists id | id in db.professionals :: db.professionals[id].dni == dni.s
  }

  /** `User.findOne({email})`, for a string email. */
  predicate UserInUse(db: Db, email: Field)
  {
    email.Text? && UserWithEmail(db.users, email.s)
  }

  /** The three lookups, compared as given (no trimming or lower-casing),
      active or not; each adds its own error. */
  function ClashErrors(db: Db, b: Body): (errs: seq<FieldError>)
    ensures errs == [] <==> !EmailInUse(db, b.email) && !DniInUse(db, b.dni) && !UserInUse(db, b.email)
    ensures Err(Email, EmailAlreadyExists) in errs <==> EmailInUse(db, b.email)
    ensures Err(Name.Dni, DniAlreadyExists) in errs <==> DniInUse(db, b.dni)
    ensures Err(Email, UserAlreadyExists) in errs <==> UserInUse(db, b.email)
    ensures forall e | e in errs :: e.meta.None?
  {
    Checks3(
      !EmailInUse(db, b.email), Email, EmailAlreadyExists,
      !DniInUse(db, b.dni), Name.Dni, DniAlreadyExists,
      !UserInUse(db, b.email), Email, UserAlreadyExists)
  }

  /** The checks on the body alone, in the handler's order. */
  function BodyErrors(b: Body): (errs: seq<FieldError>)
    ensures errs == [] <==>
      PresenceErrors(b) == [] && NameLengthErrors(b) == [] && RoleLengthErrors(b) == [] && FormatErrors(b) == []
  {
    var p := PresenceErrors(b);
    var n := NameLengthErrors(b);
    var l := RoleLengthErrors(b);
    var f := FormatErrors(b);
    assert |p + n + l + f| == |p| + |n| + |l| + |f|;
    p + n + l + f
  }

  /** Every error the handler collects: the body's, then the lookups'. */
  function Errors(db: Db, b: Body): (errs: seq<FieldError>)
    ensures errs == [] <==> BodyErrors(b) == [] && ClashErrors(db, b) == []
  {
    BodyErrors(b) + ClashErrors(db, b)
  }

  /** The body a creation stores: the fields as given, no image, active. */
  function NewRecord(b: Body, color: string, userId: Id): (p: ProfessionalRecord)
    ensures p.email == TextOf(b.email) && p.dni == TextOf(b.dni) && p.color == color
    ensures p.userId == Some(userId) && p.active && p.imageUrl.None?
  {
    ProfessionalRecord(TextOf(b.firstName), TextOf(b.lastName), TextOf(b.profession), b.specialty,
      TextOf(b.email), TextOf(b.dni), b.licence, None, color, Some(userId), true)
  }

  /** What the handler does once nothing has thrown: answer 400 with the
      collected errors, or create the professional and its login. */
  function Admit(db: Db, crypto: Crypto, b: Body, errs: seq<FieldError>, color: string, professionalId: Id, userId: Id)
    : (r: (Reply<Professionals.Created>, Db))
    ensures r.0.status == 400 <==> errs != []
    ensures errs != [] ==> r == (ValidationError(errs), db)
    ensures errs == [] ==>
      && r.0.status == 201 && CodeOf(r.0.body) == Some(ProfessionalCreated)
      && r.1.professionals == db.professionals[professionalId := NewRecord(b, color, userId)]
      && r.1.users == db.users + [UserRecord(userId, TextOf(b.email), crypto.hash(TextOf(b.dni)), Professional,
                                             Some(professionalId), Some(Professional), true)]
      && r.1.patients == db.patients && r.1.appointments == db.appointments
      && r.0.body.Ok? && r.0.body.data.credentials == Patients.Credentials(TextOf(b.email), TextOf(b.dni))
  {
    if errs != [] then (ValidationError(errs), db)
    else
      var pro := NewRecord(b, color, userId);
      var user := UserRecord(userId, TextOf(b.email), crypto.hash(TextOf(b.dni)), Professional,
                             Some(professionalId), Some(Professional), true);
      (Success(Professionals.Created(pro, true, Patients.Credentials(TextOf(b.email), TextOf(b.dni))), ProfessionalCreated, 201),
       db.(professionals := db.professionals[professionalId := pro], users := db.users + [user]))
  }

  /** `addProfessional`.  `thrown` is the message of the TypeError a
      non-string raises; `color` is the generator's pick; `professionalId`
      and `userId` are the ids the database assigns. */
  function AddProfessional(db: Db, crypto: Crypto, b: Body, color: string, professionalId: Id, userId: Id, thrown: string)
    : (r: (Reply<Professionals.Created>, Db))
    ensures r.0.status == 500 <==> Throws(b)
    ensures r.0.status == 500 ==> r == (Error(InternalServerError, 500, Some(thrown)), db)
    ensures r.0.status == 400 <==> !Throws(b) && Errors(db, b) != []
    ensures r.0.status == 201 <==> !Throws(b) && Errors(db, b) == []
    ensures !Throws(b) ==> r == Admit(db, crypto, b, Errors(db, b), color, professionalId, userId)
  {
    if Throws(b) then (Error(InternalServerError, 500, Some(thrown)), db)
    else Admit(db, crypto, b, Errors(db, b), color, professionalId, userId)
  }

  /** `getAllProfessionals` of this controller: `find()` without a filter,
      so deactivated professionals are listed too. */
  function ListAll(db: Db): (r: Reply<map<Id, ProfessionalRecord>>)
    ensures r.status == 200 && CodeOf(r.body) == Some(ProfessionalsRetrieved)
    ensures r.body.Ok? && r.body.data.Keys == db.professionals.Keys
    ensures forall id | id in r.body.data :: r.body.data[id] == db.professionals[id]
  {
    Success(db.professionals, ProfessionalsRetrieved, 200)
  }

  // ---------------------------------------------------------------------
  // Properties

  /** A missing dni is reported twice: as missing and as malformed. */
  lemma MissingDniTwice(db: Db, b: Body)
    requires b.dni == Missing
    ensures Err(Name.Dni, FormFieldsRequired) in Errors(db, b)
    ensures Err(Name.Dni, DniInvalidFormat) in Errors(db, b)
  {
    var p := PresenceErrors(b);
    var f := FormatErrors(b);
    assert BodyErrors(b) == p + NameLengthErrors(b) + RoleLengthErrors(b) + f;
  }

  /** A name that is not a string is reported as such, and not also for
      its length. */
  lemma NonStringName(db: Db, b: Body)
    requires b.firstName == Other(false)
    ensures Err(FirstName, NameMustBeString) in Errors(db, b)
    ensures FieldError(FirstName, NameMinLength, Some(Bounds(2, 50))) !in Errors(db, b)
  {
    var e := FieldError(FirstName, NameMinLength, Some(Bounds(2, 50)));
    var p := PresenceErrors(b);
    var n := NameLengthErrors(b);
    var l := RoleLengthErrors(b);
    var f := FormatErrors(b);
    var c := ClashErrors(db, b);
    assert BodyErrors(b) == p + n + l + f;
    assert e !in p && e !in n && e !in l && e !in f && e !in c;
  }

  /** The three lookups are independent: an email used by a professional
      and by a user, with a dni used by a professional, collects all three
      errors. */
  lemma AllClashesReported(db: Db, b: Body, id1: Id, id2: Id, j: nat)
    requires b.email.Text? && b.dni.Text?
    requires id1 in db.professionals && db.professionals[id1].email == b.email.s
    requires id2 in db.professionals && db.professionals[id2].dni == b.dni.s
    requires j < |db.users| && db.users[j].email == b.email.s
    ensures var errs := Errors(db, b);
      Err(Email, EmailAlreadyExists) in errs && Err(Name.Dni, DniAlreadyExists) in errs
      && Err(Email, UserAlreadyExists) in errs
  {
    var c := ClashErrors(db, b);
    assert Errors(db, b) == BodyErrors(b) + c;
  }

  /** The login a creation provisions answers the email and the dni, when
      no user had that email before. */
  lemma AdmittedLogsIn(db: Db, crypto: Crypto, b: Body, color: string, professionalId: Id, userId: Id)
    requires TextOf(b.email) != "" && TextOf(b.dni) != ""
    requires !UserWithEmail(db.users, TextOf(b.email))
    requires crypto.compare(TextOf(b.dni), crypto.hash(TextOf(b.dni)))
    ensures var after := Admit(db, crypto, b, [], color, professionalId, userId).1;
      Sessions.Login(after, crypto, TextOf(b.email), TextOf(b.dni)).status == 200
  {
    var email := TextOf(b.email);
    var after := Admit(db, crypto, b, [], color, professionalId, userId).1;
    var k := Sessions.ActiveUser(after.users, email);
    assert after.users[|db.users|].email == email && after.users[|db.users|].isActive;
    assert k.Some?;
    assert k.value == |db.users|;
    assert professionalId in after.professionals;
  }

  /** A professional created here logs in with the email and the dni,
      through the login handler as written. */
  lemma CreatedProfessionalLogsIn(db: Db, crypto: Crypto, b: Body, color: string, professionalId: Id, userId: Id, thrown: string)
    requires !Throws(b) && Errors(db, b) == []
    requires crypto.compare(TextOf(b.dni), crypto.hash(TextOf(b.dni)))
    ensures b.email.Text? && b.dni.Text?
    ensures var after := AddProfessional(db, crypto, b, color, professionalId, userId, thrown).1;
      Sessions.Login(after, crypto, b.email.s, b.dni.s).status == 200
  {
    assert BodyErrors(b) == [] && ClashErrors(db, b) == [];
    assert FormatErrors(b) == [];
    assert !UserInUse(db, b.email);
    AdmittedLogsIn(db, crypto, b, color, professionalId, userId);
  }

  /** The newer list is this one without the deactivated professionals: a
      professional deleted through the newer handler still shows here. */
  lemma ListsDiffer(db: Db, id: Id)
    requires id in db.professionals && db.professionals[id].active
    ensures ListAll(db).body.data.Keys >= Professionals.List(db).body.data.Keys
    ensures var after := Professionals.Delete(db, id).1;
      id in ListAll(after).body.data && id !in Professionals.List(after).body.data
  {
    var after := Professionals.Delete(db, id).1;
    assert !after.professionals[id].active;
  }
}
