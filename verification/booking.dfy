/** The older appointment controller (`appointmentControllers.js`): checks
    run in source order and the first failure answers with a bare
    `{error}` text; a slot that overlaps an existing appointment of the same
    professional or the same patient is refused with 409. */
module Booking {
  import opened Common
  import opened Envelope
  import opened Patterns
  import opened Records
  import Oracles

  /** The request body; `notes` may be absent or of any JSON type. */
  datatype Request = Request(startDate: string, endDate: string, professionalId: string, patientId: string, notes: Field)

  const MissingFields := "Faltan campos obligatorios."
  const BadDates := "Fechas inválidas."
  const StartNotBeforeEnd := "La fecha de inicio debe ser anterior a la fecha de fin."
  const TodayNotFuture := "La hora de inicio debe ser futura si la cita es hoy."
  const StartInPast := "La fecha de inicio no puede ser en el pasado."
  const EndInPast := "La fecha de fin no puede ser en el pasado."
  const NotesTooLong := "Las notas no pueden exceder los 500 caracteres."
  const BadIds := "ID de profesional o paciente no válido."
  const Busy := "El paciente o el profesional ya tiene una cita en ese horario."

  /** Half-open intervals `[s1, e1)` and `[s2, e2)` share an instant. */
  predicate Overlaps(s1: int, e1: int, s2: int, e2: int)
  {
    s1 < e2 && e1 > s2
  }

  /** The `$or` query: an appointment of the same professional or the same
      patient overlapping `[start, end)`.  Cancelled ones count too. */
  predicate Conflict(appts: map<Id, Appointment>, professionalId: Id, patientId: Id, start: int, end: int)
  {
    exists id | id in appts ::
      (appts[id].professionalId == professionalId || appts[id].patientId == patientId)
      && Overlaps(appts[id].startDate, appts[id].endDate, start, end)
  }

  /** The two branches of the past-start test. */
  predicate StartRejected(lib: Oracles.Lib, start: int, now: int)
  {
    if lib.dayOf(start) == lib.dayOf(now) then start <= now else start < now
  }

  /** The first failing check, if any, as its status and message. */
  function FirstFailure(lib: Oracles.Lib, now: int, appts: map<Id, Appointment>, req: Request): (f: Option<(int, string)>)
    ensures f.None? <==>
      && req.startDate != "" && req.endDate != "" && req.professionalId != "" && req.patientId != ""
      && lib.parseDate(req.startDate).Some? && lib.parseDate(req.endDate).Some?
      && var s := lib.parseDate(req.startDate).value; var e := lib.parseDate(req.endDate).value;
         s < e && now < s && now <= e
         && !(req.notes.Text? && JsLength(req.notes.s) > 500)
         && ObjectId(req.professionalId) && ObjectId(req.patientId)
         && !Conflict(appts, req.professionalId, req.patientId, s, e)
    ensures f.Some? ==> f.value.0 in {400, 409}
    ensures f.Some? && f.value.0 == 409 <==> f.Some? && f.value.1 == Busy
  {
    if req.startDate == "" || req.endDate == "" || req.professionalId == "" || req.patientId == "" then
      Some((400, MissingFields))
    else
      var start := lib.parseDate(req.startDate);
      var end := lib.parseDate(req.endDate);
      if start.None? || end.None? then Some((400, BadDates))
      else
        var s := start.value;
        var e := end.value;
        if s >= e then Some((400, StartNotBeforeEnd))
        else if lib.dayOf(s) == lib.dayOf(now) && s <= now then Some((400, TodayNotFuture))
        else if lib.dayOf(s) != lib.dayOf(now) && s < now then Some((400, StartInPast))
        else if e < now then Some((400, EndInPast))
        else if req.notes.Text? && JsLength(req.notes.s) > 500 then Some((400, NotesTooLong))
        else if !ObjectId(req.professionalId) || !ObjectId(req.patientId) then Some((400, BadIds))
        else if Conflict(appts, req.professionalId, req.patientId, s, e) then Some((409, Busy))
        else None
  }

  /** `postAppointments`: the answer and the store after it.  `newId` is the
      id the database assigns, which no stored appointment has. */
  function Post(lib: Oracles.Lib, now: int, appts: map<Id, Appointment>, req: Request, newId: Id)
    : (r: (Reply<Appointment>, map<Id, Appointment>))
    requires newId !in appts
    ensures r.0.status != 201 ==> r.1 == appts && r.0.body.Plain?
    ensures r.0.status == 201 <==> FirstFailure(lib, now, appts, req).None?
    ensures r.0.status == 201 ==>
      && r.1.Keys == appts.Keys + {newId}
      && (forall id | id in appts :: r.1[id] == appts[id])
      && r.0.body == Raw(r.1[newId])
      && r.1[newId].professionalId == req.professionalId && r.1[newId].patientId == req.patientId
      && Some(r.1[newId].startDate) == lib.parseDate(req.startDate)
      && Some(r.1[newId].endDate) == lib.parseDate(req.endDate)
  {
    match FirstFailure(lib, now, appts, req)
    case Some((status, message)) => (Reply(status, Plain(message)), appts)
    case None =>
      var a := Appointment(req.professionalId, req.patientId,
        lib.parseDate(req.startDate).value, lib.parseDate(req.endDate).value,
        if req.notes.Text? then Some(req.notes.s) else None, None, None);
      (Reply(201, Raw(a)), appts[newId := a])
  }

  // ---------------------------------------------------------------------
  // Properties

  /** Whether the start falls on today's date or not, the two branches
      together refuse exactly a start at or before now. */
  lemma StartBranchesCollapse(lib: Oracles.Lib, start: int, now: int, end: int)
    requires start < end
    ensures (StartRejected(lib, start, now) || end < now) <==> start <= now
  {
  }

  /** Appointments that meet end to start do not conflict. */
  lemma BackToBackAllowed(a: Appointment, start: int, end: int)
    requires a.endDate == start && start < end
    ensures !Overlaps(a.startDate, a.endDate, start, end)
  {
  }

  /** Overlap is symmetric: whichever slot was booked first, the other is
      refused. */
  lemma OverlapSymmetric(s1: int, e1: int, s2: int, e2: int)
    ensures Overlaps(s1, e1, s2, e2) <==> Overlaps(s2, e2, s1, e1)
  {
  }

  /** A cancelled appointment still blocks its slot. */
  lemma CancelledStillBlocks(lib: Oracles.Lib, now: int, appts: map<Id, Appointment>, req: Request, id: Id, newId: Id)
    requires newId !in appts
    requires id in appts && appts[id].status == Some(Status(true, Some(now)))
    requires FirstFailure(lib, now, map[], req).None?
    requires appts[id].professionalId == req.professionalId
    requires Overlaps(appts[id].startDate, appts[id].endDate,
                      lib.parseDate(req.startDate).value, lib.parseDate(req.endDate).value)
    ensures Post(lib, now, appts, req, newId).0 == Reply(409, Plain(Busy))
  {
    var s := lib.parseDate(req.startDate).value;
    var e := lib.parseDate(req.endDate).value;
    assert Conflict(appts, req.professionalId, req.patientId, s, e);
  }

  /** After a successful booking, the same request is refused as a conflict. */
  lemma RebookingConflicts(lib: Oracles.Lib, now: int, appts: map<Id, Appointment>, req: Request, id1: Id, id2: Id)
    requires id1 !in appts && id2 !in appts && id1 != id2
    requires Post(lib, now, appts, req, id1).0.status == 201
    ensures var after := Post(lib, now, appts, req, id1).1;
      Post(lib, now, after, req, id2).0 == Reply(409, Plain(Busy))
  {
    var after := Post(lib, now, appts, req, id1).1;
    var s := lib.parseDate(req.startDate).value;
    var e := lib.parseDate(req.endDate).value;
    assert after[id1].professionalId == req.professionalId;
    assert Conflict(after, req.professionalId, req.patientId, s, e);
  }
}
