/** The stored entities of the clinic API and the in-memory store that
    stands for the MongoDB collections.  Ids are strings; the store maps
    each id to its document, except the users collection, which is an
    ordered sequence because `User.findOne` answers with the first match. */
module Records {
  import opened Common

  type Id = string

  datatype Role = Admin | Professional | Patient

  /** A Patient document (the field set the controllers and validators use). */
  datatype PatientRecord = PatientRecord(
    firstName: string, lastName: string, email: string, phone: string,
    birthDate: Option<int>, dni: string, gender: string, street: string,
    city: string, postalCode: string, nationality: string,
    emergencyContact: string, imageUrl: string,
    userId: Option<Id>, active: bool)

  /** A Professional document; `imageUrl` is `None` when it was never set. */
  datatype ProfessionalRecord = ProfessionalRecord(
    firstName: string, lastName: string, profession: string, specialty: string,
    email: string, dni: string, licence: string, imageUrl: Option<string>,
    color: string, userId: Option<Id>, active: bool)

  /** A User document: the login identity linked to a profile.  `password`
      holds the bcrypt hash; `profileModel` names the profile's collection. */
  datatype UserRecord = UserRecord(
    id: Id, email: string, password: string, role: Role,
    profileId: Option<Id>, profileModel: Option<Role>, isActive: bool)

  /** `status: {cancelled, timestamp}` of an appointment. */
  datatype Status = Status(cancelled: bool, timestamp: Option<int>)

  /** An Appointment document; instants are milliseconds. */
  datatype Appointment = Appointment(
    professionalId: Id, patientId: Id, startDate: int, endDate: int,
    notes: Option<string>, professionalNotes: Option<string>, status: Option<Status>)

  datatype Db = Db(
    patients: map<Id, PatientRecord>,
    professionals: map<Id, ProfessionalRecord>,
    users: seq<UserRecord>,
    appointments: map<Id, Appointment>)

  /** The index of the first user satisfying `p`, as `findOne` picks it. */
  function FirstUser(users: seq<UserRecord>, p: UserRecord -> bool): (r: Option<nat>)
    ensures r.Some? ==> r.value < |users| && p(users[r.value])
    ensures r.Some? ==> forall j | 0 <= j < r.value :: !p(users[j])
    ensures r.None? ==> forall j | 0 <= j < |users| :: !p(users[j])
  {
    if users == [] then None
    else if p(users[0]) then Some(0)
    else match FirstUser(users[1..], p)
      case None => None
      case Some(k) => Some(k + 1)
  }

  /** `User.findOne({email})` */
  predicate UserWithEmail(users: seq<UserRecord>, email: string)
  {
    exists j | 0 <= j < |users| :: users[j].email == email
  }

  /** `User.findById(id)`: the first user with that id. */
  function UserById(users: seq<UserRecord>, id: Id): (r: Option<UserRecord>)
    ensures r.Some? ==> r.value in users && r.value.id == id
    ensures r.None? ==> forall j | 0 <= j < |users| :: users[j].id != id
  {
    match FirstUser(users, (u: UserRecord) => u.id == id)
    case None => None
    case Some(k) => Some(users[k])
  }
}
