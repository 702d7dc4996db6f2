/** The newer appointment controller (`appointments.controller.js`): create
    collects every problem before answering and stores the appointment with
    an uncancelled status, without an overlap check; delete removes the
    record; cancel flips the status in place; the notes update writes only
    the fields the body carries. */
module Appointments {
  import opened Common
  import opened Envelope
  import opened Patterns
  import opened Records
  import opened Chains
  import Oracles
  import Booking

  /** The create body.  "" stands for an absent or falsy field. */
  datatype Request = Request(
    professionalId: string, patientId: string, startDate: string, endDate: string,
    notes: Option<string>)

  /** The meta the controller attaches to END_TIME_BEFORE_START_TIME. */
  const EndHint: Meta := Meta(Some(1), Some(999), Some("end must be after start"))

  /** `startDate ? new Date(startDate) : null`: `None` stands for both null
      and an Invalid Date, which compare false alike. */
  function Instant(lib: Oracles.Lib, raw: string): Option<int>
  {
    if raw == "" then None else lib.parseDate(raw)
  }

  predicate Before(a: Option<int>, t: int)
  {
    a.Some? && a.value < t
  }

  /** A present id that is not 24 hexadecimal digits. */
  function IdErrors(field: Name, id: string): (errs: seq<FieldError>)
    ensures errs == [] <==> id == "" || ObjectId(id)
    ensures AllOn(errs, field)
  {
    Check(id == "" || ObjectId(id), field, NameInvalidCharacters)
  }

  /** The three date checks, each independent of the others. */
  function DateErrors(start: Option<int>, end: Option<int>, now: int): (errs: seq<FieldError>)
    ensures errs == [] <==> !Oracles.NotAfter(end, start) && !Before(start, now) && !Before(end, now)
    ensures forall e | e in errs :: e.field in {StartDate, EndDate}
    ensures FieldError(EndDate, EndTimeBeforeStartTime, Some(EndHint)) in errs <==> Oracles.NotAfter(end, start)
    ensures Err(StartDate, AppointmentInPast) in errs <==> Before(start, now)
    ensures Err(EndDate, AppointmentInPast) in errs <==> Before(end, now)
  {
    (if Oracles.NotAfter(end, start) then [FieldError(EndDate, EndTimeBeforeStartTime, Some(EndHint))] else [])
    + Check(!Before(start, now), StartDate, AppointmentInPast)
    + Check(!Before(end, now), EndDate, AppointmentInPast)
  }

  /** FORM_FIELDS_REQUIRED for each falsy required field. */
  function MissingErrors(req: Request): (errs: seq<FieldError>)
    ensures errs == [] <==>
      req.professionalId != "" && req.patientId != "" && req.startDate != "" && req.endDate != ""
    ensures Err(ProfessionalId, FormFieldsRequired) in errs <==> req.professionalId == ""
    ensures Err(PatientId, FormFieldsRequired) in errs <==> req.patientId == ""
    ensures Err(StartDate, FormFieldsRequired) in errs <==> req.startDate == ""
    ensures Err(EndDate, FormFieldsRequired) in errs <==> req.endDate == ""
    ensures forall e | e in errs :: e.code == FormFieldsRequired
  {
    var a := Check(req.professionalId != "", ProfessionalId, FormFieldsRequired);
    var b := Check(req.patientId != "", PatientId, FormFieldsRequired);
    var c := Check(req.startDate != "", StartDate, FormFieldsRequired);
    var d := Check(req.endDate != "", EndDate, FormFieldsRequired);
    NoneOf4(a, b, c, d);
    a + b + c + d
  }

  /** NAME_INVALID_CHARACTERS for each present id that is not an ObjectId. */
  function MalformedIds(req: Request): (errs: seq<FieldError>)
    ensures errs == [] <==>
      (req.professionalId == "" || ObjectId(req.professionalId))
      && (req.patientId == "" || ObjectId(req.patientId))
    ensures Err(ProfessionalId, NameInvalidCharacters) in errs <==>
      req.professionalId != "" && !ObjectId(req.professionalId)
    ensures Err(PatientId, NameInvalidCharacters) in errs <==>
      req.patientId != "" && !ObjectId(req.patientId)
    ensures forall e | e in errs :: e.code == NameInvalidCharacters
  {
    IdErrors(ProfessionalId, req.professionalId) + IdErrors(PatientId, req.patientId)
  }

  /** Every error `postAppointments` collects, in the order it pushes them. */
  function CreateErrors(lib: Oracles.Lib, now: int, req: Request): (errs: seq<FieldError>)
    ensures errs == [] <==>
      && ObjectId(req.professionalId) && ObjectId(req.patientId)
      && req.startDate != "" && req.endDate != ""
      && DateErrors(Instant(lib, req.startDate), Instant(lib, req.endDate), now) == []
  {
    var missing := MissingErrors(req);
    var ids := MalformedIds(req);
    var dates := DateErrors(Instant(lib, req.startDate), Instant(lib, req.endDate), now);
    assert !ObjectId("");
    assert |missing + ids + dates| == |missing| + |ids| + |dates|;
    missing + ids + dates
  }

  /** `postAppointments`: the answer and the store after it.  `newId` is the
      id the database assigns; `castFailure` is the message of the error
      Mongoose raises when a date it is given cannot be cast, which the
      catch answers with 500. */
  function Post(lib: Oracles.Lib, now: int, appts: map<Id, Appointment>, req: Request, newId: Id, castFailure: string)
    : (r: (Reply<Appointment>, map<Id, Appointment>))
    requires newId !in appts
    ensures r.0.status != 201 ==> r.1 == appts
    ensures r.0.status == 400 <==> CreateErrors(lib, now, req) != []
    ensures r.0.status == 400 ==> r.0 == ValidationError(CreateErrors(lib, now, req), 400)
    ensures r.0.status == 201 <==>
      CreateErrors(lib, now, req) == []
      && lib.parseDate(req.startDate).Some? && lib.parseDate(req.endDate).Some?
    ensures r.0.status == 201 ==>
      && r.1.Keys == appts.Keys + {newId}
      && (forall id | id in appts :: r.1[id] == appts[id])
      && r.0 == Success(r.1[newId], AppointmentCreated, 201)
      && r.1[newId].professionalId == req.professionalId && r.1[newId].patientId == req.patientId
      && Some(r.1[newId].startDate) == lib.parseDate(req.startDate)
      && Some(r.1[newId].endDate) == lib.parseDate(req.endDate)
      && r.1[newId].startDate < r.1[newId].endDate
      && now <= r.1[newId].startDate
      && r.1[newId].notes == req.notes
      && r.1[newId].status == Some(Status(false, None))
    ensures r.0.status in {201, 400, 500}
  {
    var errs := CreateErrors(lib, now, req);
    if errs != [] then (ValidationError(errs, 400), appts)
    else
      var start := Instant(lib, req.startDate);
      var end := Instant(lib, req.endDate);
      if start.None? || end.None? then (Error(InternalServerError, 500, Some(castFailure)), appts)
      else
        var a := Appointment(req.professionalId, req.patientId, start.value, end.value,
          req.notes, None, Some(Status(false, None)));
        (Success(a, AppointmentCreated, 201), appts[newId := a])
  }

  /** `deleteAppointments` */
  function Delete(appts: map<Id, Appointment>, id: string): (r: (Reply<Appointment>, map<Id, Appointment>))
    ensures r.0.status == 200 <==> ObjectId(id) && id in appts
    ensures r.0.status == 200 ==>
      r.1 == appts - {id} && r.0 == Success(appts[id], AppointmentDeleted, 200)
    ensures r.0.status != 200 ==> r.1 == appts
    ensures !ObjectId(id) ==> r.0 == ValidationError([Err(IdParam, NameInvalidCharacters)], 400)
    ensures ObjectId(id) && id !in appts ==> r.0 == Error(AppointmentNotFound, 404)
  {
    if !ObjectId(id) then (ValidationError([Err(IdParam, NameInvalidCharacters)], 400), appts)
    else if id !in appts then (Error(AppointmentNotFound, 404), appts)
    else (Success(appts[id], AppointmentDeleted, 200), appts - {id})
  }

  /** `cancelAppointments`: `$set status = {cancelled: true, timestamp: now}`. */
  function Cancel(appts: map<Id, Appointment>, id: string, now: int): (r: (Reply<Appointment>, map<Id, Appointment>))
    ensures r.1.Keys == appts.Keys
    ensures r.0.status == 200 <==> ObjectId(id) && id in appts
    ensures r.0.status == 200 ==>
      && r.1[id].status == Some(Status(true, Some(now)))
      && r.1[id].(status := appts[id].status) == appts[id]
      && (forall k | k in appts && k != id :: r.1[k] == appts[k])
      && r.0 == Success(r.1[id], AppointmentCancelled, 200)
    ensures r.0.status != 200 ==> r.1 == appts
    ensures !ObjectId(id) ==> r.0 == ValidationError([Err(IdParam, IdInvalidFormat)], 400)
    ensures ObjectId(id) && id !in appts ==> r.0 == Error(AppointmentNotFound, 404)
  {
    if !ObjectId(id) then (ValidationError([Err(IdParam, IdInvalidFormat)], 400), appts)
    else if id !in appts then (Error(AppointmentNotFound, 404), appts)
    else
      var a := appts[id].(status := Some(Status(true, Some(now))));
      (Success(a, AppointmentCancelled, 200), appts[id := a])
  }

  /** A body value is truthy: present and not "". */
  predicate Supplied(v: Option<string>)
  {
    v.Some? && v.value != ""
  }

  /** `$set` of the fields that are not undefined. */
  function Merge(a: Appointment, notes: Option<string>, professionalNotes: Option<string>): (m: Appointment)
    ensures m.(notes := a.notes, professionalNotes := a.professionalNotes) == a
    ensures notes.Some? ==> m.notes == notes
    ensures notes.None? ==> m.notes == a.notes
    ensures professionalNotes.Some? ==> m.professionalNotes == professionalNotes
    ensures professionalNotes.None? ==> m.professionalNotes == a.professionalNotes
  {
    a.(notes := if notes.Some? then notes else a.notes,
       professionalNotes := if professionalNotes.Some? then professionalNotes else a.professionalNotes)
  }

  /** `updateAppointmentNotes`: at least one of the two fields must be
      truthy; then every field the body carries is written, "" included. */
  function UpdateNotes(appts: map<Id, Appointment>, id: string, notes: Option<string>, professionalNotes: Option<string>)
    : (r: (Reply<Appointment>, map<Id, Appointment>))
    ensures r.1.Keys == appts.Keys
    ensures r.0.status == 200 <==>
      ObjectId(id) && (Supplied(notes) || Supplied(professionalNotes)) && id in appts
    ensures r.0.status == 200 ==>
      && r.1 == appts[id := Merge(appts[id], notes, professionalNotes)]
      && r.0 == Success(r.1[id], NotesUpdated, 200)
    ensures r.0.status != 200 ==> r.1 == appts
    ensures ObjectId(id) && !Supplied(notes) && !Supplied(professionalNotes) ==>
      r.0 == ValidationError([Err(Notes, FormFieldsRequired), Err(ProfessionalNotes, FormFieldsRequired)], 400)
  {
    if !ObjectId(id) then (ValidationError([Err(IdParam, IdInvalidFormat)], 400), appts)
    else if !Supplied(notes) && !Supplied(professionalNotes) then
      (ValidationError([Err(Notes, FormFieldsRequired), Err(ProfessionalNotes, FormFieldsRequired)], 400), appts)
    else if id !in appts then (Error(AppointmentNotFound, 404), appts)
    else
      var a := Merge(appts[id], notes, professionalNotes);
      (Success(a, NotesUpdated, 200), appts[id := a])
  }

  // ---------------------------------------------------------------------
  // Properties

  /** Every problem is reported, each by its own entry: a missing field
      only as missing, a present malformed id only as malformed, and the
      three date checks independently of one another. */
  lemma CreateReportsEach(lib: Oracles.Lib, now: int, req: Request)
    ensures var errs := CreateErrors(lib, now, req);
      && (Err(ProfessionalId, FormFieldsRequired) in errs <==> req.professionalId == "")
      && (Err(PatientId, FormFieldsRequired) in errs <==> req.patientId == "")
      && (Err(StartDate, FormFieldsRequired) in errs <==> req.startDate == "")
      && (Err(EndDate, FormFieldsRequired) in errs <==> req.endDate == "")
    ensures var errs := CreateErrors(lib, now, req);
      && (Err(ProfessionalId, NameInvalidCharacters) in errs <==>
            req.professionalId != "" && !ObjectId(req.professionalId))
      && (Err(PatientId, NameInvalidCharacters) in errs <==>
            req.patientId != "" && !ObjectId(req.patientId))
    ensures var errs := CreateErrors(lib, now, req);
      var s := Instant(lib, req.startDate); var e := Instant(lib, req.endDate);
      && (FieldError(EndDate, EndTimeBeforeStartTime, Some(EndHint)) in errs <==> Oracles.NotAfter(e, s))
      && (Err(StartDate, AppointmentInPast) in errs <==> Before(s, now))
      && (Err(EndDate, AppointmentInPast) in errs <==> Before(e, now))
  {
    var s := Instant(lib, req.startDate);
    var e := Instant(lib, req.endDate);
    assert CreateErrors(lib, now, req) == MissingErrors(req) + MalformedIds(req) + DateErrors(s, e, now);
  }

  /** The newer controller books the same slot twice: with no overlap check,
      the request the older controller answers with 409 succeeds again. */
  lemma DoubleBookingAccepted(lib: Oracles.Lib, now: int, appts: map<Id, Appointment>, req: Request,
                              id1: Id, id2: Id, failure: string)
    requires id1 !in appts && id2 !in appts && id1 != id2
    requires Post(lib, now, appts, req, id1, failure).0.status == 201
    ensures var after := Post(lib, now, appts, req, id1, failure).1;
      Post(lib, now, after, req, id2, failure).0.status == 201
      && Booking.Overlaps(after[id1].startDate, after[id1].endDate,
                          Post(lib, now, after, req, id2, failure).1[id2].startDate,
                          Post(lib, now, after, req, id2, failure).1[id2].endDate)
  {
  }

  /** Cancelling never removes an appointment, and cancelling again leaves
      it cancelled with nothing but the timestamp changed. */
  lemma CancelTwice(appts: map<Id, Appointment>, id: string, t1: int, t2: int)
    requires Cancel(appts, id, t1).0.status == 200
    ensures var once := Cancel(appts, id, t1).1;
      var twice := Cancel(once, id, t2);
      && twice.0.status == 200
      && twice.1.Keys == appts.Keys
      && twice.1[id].status == Some(Status(true, Some(t2)))
      && twice.1[id].(status := once[id].status) == once[id]
      && (t1 == t2 ==> twice.1 == once)
  {
    var once := Cancel(appts, id, t1).1;
    assert id in once;
  }

  /** A cancelled appointment can still be deleted; after that it is gone. */
  lemma DeleteAfterCancel(appts: map<Id, Appointment>, id: string, now: int)
    requires Cancel(appts, id, now).0.status == 200
    ensures var d := Delete(Cancel(appts, id, now).1, id);
      d.0.status == 200 && id !in d.1 && d.0.body.data.status == Some(Status(true, Some(now)))
  {
  }

  /** A second delete of the same id is answered 404. */
  lemma DeleteTwice(appts: map<Id, Appointment>, id: string)
    requires Delete(appts, id).0.status == 200
    ensures Delete(Delete(appts, id).1, id).0 == Error(AppointmentNotFound, 404)
  {
  }

  /** When the other field is truthy, an empty `notes` overwrites the stored
      notes with "". */
  lemma EmptyNotesOverwrite(appts: map<Id, Appointment>, id: string, professionalNotes: string)
    requires ObjectId(id) && id in appts && professionalNotes != ""
    ensures var r := UpdateNotes(appts, id, Some(""), Some(professionalNotes));
      r.0.status == 200 && r.1[id].notes == Some("") && r.1[id].professionalNotes == Some(professionalNotes)
  {
  }

  /** Updating only the professional notes keeps the patient's notes. */
  lemma ProfessionalNotesOnly(appts: map<Id, Appointment>, id: string, professionalNotes: string)
    requires ObjectId(id) && id in appts && professionalNotes != ""
    ensures var r := UpdateNotes(appts, id, None, Some(professionalNotes));
      r.0.status == 200 && r.1[id].notes == appts[id].notes
      && r.1[id].status == appts[id].status && r.1[id].startDate == appts[id].startDate
  {
  }
}
