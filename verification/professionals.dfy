/** The newer professional handlers (`professionals.controller.js`):
    creation assigns a colour and provisions an active login, lists and
    lookups see active records only, an update re-normalises the fields,
    and a delete toggles `active`. */
module Professionals {
  import opened Common
  import opened Envelope
  import opened Records
  import opened AuthMiddleware
  import ProfessionalRules
  import Patients
  import Sessions

  datatype Created = Created(professional: ProfessionalRecord, authCreated: bool, credentials: Patients.Credentials)

  /** The stored professional; an empty `imageUrl` is not set at all. */
  function NewRecord(f: ProfessionalRules.Form, color: string, userId: Option<Id>): (p: ProfessionalRecord)
    ensures p.active && p.userId == userId && p.color == color && p.dni == f.dni && p.email == f.email
    ensures p.imageUrl == if f.imageUrl == "" then None else Some(f.imageUrl)
  {
    ProfessionalRecord(f.firstName, f.lastName, f.profession, f.specialty, f.email, f.dni, f.licence,
      if f.imageUrl != "" then Some(f.imageUrl) else None, color, userId, true)
  }

  /** `addProfessional`: create the professional with the colour the
      generator gave, then an active user whose password is the hashed dni,
      then link the user back. */
  function Create(db: Db, crypto: Crypto, f: ProfessionalRules.Form, color: string, professionalId: Id, userId: Id)
    : (r: (Reply<Created>, Db))
    requires professionalId !in db.professionals
    requires forall j | 0 <= j < |db.users| :: db.users[j].id != userId
    ensures r.0.status == 201 && CodeOf(r.0.body) == Some(ProfessionalCreated)
    ensures r.1.professionals.Keys == db.professionals.Keys + {professionalId}
    ensures forall id | id in db.professionals :: r.1.professionals[id] == db.professionals[id]
    ensures |r.1.users| == |db.users| + 1 && r.1.users[..|db.users|] == db.users
    ensures r.1.patients == db.patients && r.1.appointments == db.appointments
    ensures var p := r.1.professionals[professionalId]; var u := r.1.users[|db.users|];
      && p.userId == Some(u.id) && u.id == userId && u.profileId == Some(professionalId)
      && u.role == Professional && u.profileModel == Some(Professional) && u.isActive
      && u.password == crypto.hash(f.dni) && u.email == f.email
      && p.active && p.color == color && p.dni == f.dni
    ensures r.0.body.Ok? && r.0.body.data.professional == r.1.professionals[professionalId]
      && r.0.body.data.authCreated
      && r.0.body.data.credentials == Patients.Credentials(f.email, f.dni)
  {
    var user := UserRecord(userId, f.email, crypto.hash(f.dni), Professional, Some(professionalId), Some(Professional), true);
    var pro := NewRecord(f, color, Some(userId));
    var after := db.(professionals := db.professionals[professionalId := pro], users := db.users + [user]);
    assert after.users[..|db.users|] == db.users;
    (Success(Created(pro, true, Patients.Credentials(user.email, f.dni)), ProfessionalCreated, 201), after)
  }

  function ActiveOnly(pros: map<Id, ProfessionalRecord>): (m: map<Id, ProfessionalRecord>)
    ensures forall id :: id in m <==> id in pros && pros[id].active
    ensures forall id | id in m :: m[id] == pros[id]
  {
    map id | id in pros && pros[id].active :: pros[id]
  }

  /** `getAllProfessionals`: `find({active: true})`. */
  function List(db: Db): (r: Reply<map<Id, ProfessionalRecord>>)
    ensures r == Success(ActiveOnly(db.professionals), ProfessionalsRetrieved, 200)
  {
    Success(ActiveOnly(db.professionals), ProfessionalsRetrieved, 200)
  }

  /** `getProfessionalById`: `findOne({_id: id, active: true})`. */
  function Get(db: Db, id: Id): (r: Reply<ProfessionalRecord>)
    ensures r.status == 200 <==> id in db.professionals && db.professionals[id].active
    ensures r.status == 200 ==> r == Success(db.professionals[id], ProfessionalRetrieved, 200)
    ensures r.status != 200 ==> r == Error(ProfessionalNotFound, 404)
  {
    if id in db.professionals && db.professionals[id].active then
      Success(db.professionals[id], ProfessionalRetrieved, 200)
    else Error(ProfessionalNotFound, 404)
  }

  /** The fields `updateProfessional` writes: trimmed, the email also
      lower-cased, an absent specialty or licence written as "", the image
      only when one is given.  The notes the validators sanitized are not
      written. */
  function Updated(prev: ProfessionalRecord, f: ProfessionalRules.Form): (p: ProfessionalRecord)
    ensures p.userId == prev.userId && p.active == prev.active && p.color == prev.color
    ensures IsLowerCased(p.email) && p.email == Lower(Trim(f.email))
    ensures p.firstName == Trim(f.firstName) && p.lastName == Trim(f.lastName) && p.dni == Trim(f.dni)
    ensures p.specialty == Trim(f.specialty) && p.licence == Trim(f.licence)
    ensures f.imageUrl == "" ==> p.imageUrl == prev.imageUrl
    ensures f.imageUrl != "" ==> p.imageUrl == Some(Trim(f.imageUrl))
  {
    LowerIsLowerCased(Trim(f.email));
    prev.(firstName := Trim(f.firstName), lastName := Trim(f.lastName),
      profession := Trim(f.profession),
      specialty := if f.specialty != "" then Trim(f.specialty) else "",
      email := Lower(Trim(f.email)), dni := Trim(f.dni),
      licence := if f.licence != "" then Trim(f.licence) else "",
      imageUrl := if f.imageUrl != "" then Some(Trim(f.imageUrl)) else prev.imageUrl)
  }

  /** `updateProfessional`: `findById` does not look at `active`. */
  function Update(db: Db, id: Id, f: ProfessionalRules.Form): (r: (Reply<ProfessionalRecord>, Db))
    ensures r.0.status == 200 <==> id in db.professionals
    ensures r.0.status != 200 ==> r == (Error(ProfessionalNotFound, 404), db)
    ensures r.0.status == 200 ==>
      && r.1 == db.(professionals := db.professionals[id := Updated(db.professionals[id], f)])
      && r.0 == Success(r.1.professionals[id], ProfessionalUpdated, 200)
  {
    if id !in db.professionals then (Error(ProfessionalNotFound, 404), db)
    else
      var p := Updated(db.professionals[id], f);
      (Success(p, ProfessionalUpdated, 200), db.(professionals := db.professionals[id := p]))
  }

  /** `deleteProfessional`: `active` is negated, whatever it was. */
  function Delete(db: Db, id: Id): (r: (Reply<ProfessionalRecord>, Db))
    ensures r.0.status == 200 <==> id in db.professionals
    ensures r.1.professionals.Keys == db.professionals.Keys
    ensures r.1.users == db.users && r.1.patients == db.patients && r.1.appointments == db.appointments
    ensures r.0.status != 200 ==> r == (Error(ProfessionalNotFound, 404), db)
    ensures r.0.status == 200 ==>
      && r.1.professionals[id].active == !db.professionals[id].active
      && r.1.professionals[id].(active := db.professionals[id].active) == db.professionals[id]
      && (forall k | k in db.professionals && k != id :: r.1.professionals[k] == db.professionals[k])
      && r.0 == Success(r.1.professionals[id], ProfessionalDeleted, 200)
  {
    if id !in db.professionals then (Error(ProfessionalNotFound, 404), db)
    else
      var p := db.professionals[id].(active := !db.professionals[id].active);
      (Success(p, ProfessionalDeleted, 200), db.(professionals := db.professionals[id := p]))
  }

  // ---------------------------------------------------------------------
  // Properties

  /** A second delete undoes the first: the professional is back, active
      as before.  A patient deleted twice stays deleted. */
  lemma SecondDeleteRestores(db: Db, id: Id)
    requires id in db.professionals && id in db.patients
    ensures Delete(Delete(db, id).1, id).1 == db
    ensures !Patients.Delete(Patients.Delete(db, id).1, id).1.patients[id].active
  {
    var once := Delete(db, id).1;
    assert once.professionals[id].(active := db.professionals[id].active) == db.professionals[id];
    assert once.professionals[id := db.professionals[id]] == db.professionals;
  }

  /** A deleted active professional is hidden from the list and lookups,
      and its login is untouched. */
  lemma DeletedIsHidden(db: Db, id: Id)
    requires id in db.professionals && db.professionals[id].active
    ensures var after := Delete(db, id).1;
      id !in ActiveOnly(after.professionals) && Get(after, id) == Error(ProfessionalNotFound, 404)
      && after.users == db.users
  {
  }

  /** An update without a specialty clears the stored one. */
  lemma MissingSpecialtyClears(db: Db, id: Id, f: ProfessionalRules.Form)
    requires id in db.professionals && f.specialty == ""
    ensures Update(db, id, f).1.professionals[id].specialty == ""
  {
  }

  /** A new professional logs in with the email and the dni, through the
      handler as written (the profile is found), provided bcrypt accepts the
      dni against its hash and no active user already has that email. */
  lemma NewProfessionalLogsIn(db: Db, crypto: Crypto, f: ProfessionalRules.Form, color: string, professionalId: Id, userId: Id)
    requires professionalId !in db.professionals
    requires forall j | 0 <= j < |db.users| :: db.users[j].id != userId
    requires f.email != "" && f.dni != ""
    requires crypto.compare(f.dni, crypto.hash(f.dni))
    requires forall j | 0 <= j < |db.users| :: !(db.users[j].email == f.email && db.users[j].isActive)
    ensures Sessions.Login(Create(db, crypto, f, color, professionalId, userId).1, crypto, f.email, f.dni).status == 200
  {
    var after := Create(db, crypto, f, color, professionalId, userId).1;
    var k := Sessions.ActiveUser(after.users, f.email);
    assert after.users[|db.users|].email == f.email && after.users[|db.users|].isActive;
    assert k.Some?;
    assert k.value == |db.users|;
  }
}
