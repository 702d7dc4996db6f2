/** The appointment validators (`appointment.validators.js`) and the older
    notes middleware (`validateNotes.js`).  Both refuse notes that carry
    HTML or run past 500 UTF-16 units; the validator chain does it from a
    custom sanitizer, whose throw leaves the chain and reaches Express's
    error handlers instead of `validate`. */
module AppointmentRules {
  import opened Common
  import opened Envelope
  import opened Patterns
  import opened Chains
  import Oracles

  /** The body fields the chains read; a missing field reads as "". */
  datatype Form = Form(professionalId: string, patientId: string, startDate: string, endDate: string, notes: string)

  /** A custom sanitizer either yields a value or throws. */
  datatype Sanitized = Value(s: string) | Throws(code: Code)

  /** What running the chains leaves: the collected errors and the
      sanitized body, or an error thrown out of a chain (`next(err)`). */
  datatype Outcome = Checked(errs: seq<FieldError>, form: Form) | Aborted(code: Code)

  /** The longest notes either rule allows, in UTF-16 units. */
  const NotesMax := 500

  /** Notes that both rules let through: empty, or free of markup and
      within the limit. */
  predicate NotesAcceptable(lib: Oracles.Lib, notes: string)
  {
    notes == "" || (lib.stripTags(notes) == notes && JsLength(notes) <= NotesMax)
  }

  /** `notesSanitization`: a falsy value is returned as is; a value that
      sanitize-html would change throws NOTES_HTML_NOT_ALLOWED; a clean value
      over 500 throws NOTES_TOO_LONG.  A value that survives is unchanged. */
  function NotesSanitization(lib: Oracles.Lib, value: string): (r: Sanitized)
    ensures r.Value? <==> NotesAcceptable(lib, value)
    ensures r.Value? ==> r.s == value
    ensures r == Throws(NotesHtmlNotAllowed) <==> value != "" && lib.stripTags(value) != value
    ensures r == Throws(NotesTooLong) <==>
      value != "" && lib.stripTags(value) == value && JsLength(value) > NotesMax
  {
    if value == "" then Value(value)
    else
      var sanitized := lib.stripTags(value);
      if value != sanitized then Throws(NotesHtmlNotAllowed)
      else if JsLength(sanitized) > NotesMax then Throws(NotesTooLong)
      else Value(sanitized)
  }

  /** `idValidation`: `param('id').trim().isMongoId()`. */
  function IdParamErrors(id: string): (errs: seq<FieldError>)
    ensures errs == [] <==> ObjectId(Trim(id))
    ensures forall e | e in errs :: e == Err(IdParam, IdInvalidFormat)
  {
    Check(ObjectId(Trim(id)), IdParam, IdInvalidFormat)
  }

  /** A body id: trimmed, required, a Mongo ObjectId. */
  function IdChain(field: Name, raw: string): (errs: seq<FieldError>)
    ensures errs == [] <==> ObjectId(Trim(raw))
    ensures AllOn(errs, field)
  {
    var v := Trim(raw);
    Check(v != "", field, FormFieldsRequired) + Check(ObjectId(v), field, IdInvalidFormat)
  }

  /** startDate: required, ISO 8601, and not at or before now.  A value the
      Date constructor cannot read compares false and passes the custom step. */
  function StartChain(lib: Oracles.Lib, now: int, raw: string): (errs: seq<FieldError>)
    ensures errs == [] <==>
      raw != "" && lib.isISO8601(raw) && !Oracles.AtOrBefore(lib.parseDate(raw), now)
    ensures AllOn(errs, StartDate)
    ensures Err(StartDate, FormFieldsRequired) in errs <==> raw == ""
    ensures Err(StartDate, DateInvalidFormat) in errs <==> !lib.isISO8601(raw)
    ensures Err(StartDate, DateMustBeFuture) in errs <==> Oracles.AtOrBefore(lib.parseDate(raw), now)
    ensures raw != "" && lib.isISO8601(raw) && Oracles.AtOrBefore(lib.parseDate(raw), now) ==>
      errs == [Err(StartDate, DateMustBeFuture)]
  {
    var a := Check(raw != "", StartDate, FormFieldsRequired);
    var b := Check(lib.isISO8601(raw), StartDate, DateInvalidFormat);
    var c := Check(!Oracles.AtOrBefore(lib.parseDate(raw), now), StartDate, DateMustBeFuture);
    Concat3(a, b, c, StartDate);
    a + b + c
  }

  /** endDate: required, ISO 8601, and after the raw startDate. */
  function EndChain(lib: Oracles.Lib, raw: string, start: string): (errs: seq<FieldError>)
    ensures errs == [] <==>
      raw != "" && lib.isISO8601(raw) && !Oracles.NotAfter(lib.parseDate(raw), lib.parseDate(start))
    ensures AllOn(errs, EndDate)
    ensures Err(EndDate, FormFieldsRequired) in errs <==> raw == ""
    ensures Err(EndDate, DateInvalidFormat) in errs <==> !lib.isISO8601(raw)
    ensures Err(EndDate, EndDateAfterStart) in errs <==> Oracles.NotAfter(lib.parseDate(raw), lib.parseDate(start))
    ensures raw != "" && lib.isISO8601(raw) && Oracles.NotAfter(lib.parseDate(raw), lib.parseDate(start)) ==>
      errs == [Err(EndDate, EndDateAfterStart)]
  {
    var a := Check(raw != "", EndDate, FormFieldsRequired);
    var b := Check(lib.isISO8601(raw), EndDate, DateInvalidFormat);
    var c := Check(!Oracles.NotAfter(lib.parseDate(raw), lib.parseDate(start)), EndDate, EndDateAfterStart);
    Concat3(a, b, c, EndDate);
    a + b + c
  }

  /** `createAppointmentValidation`: the four chains collect errors, then the
      optional notes chain either passes the notes on or throws. */
  function Create(lib: Oracles.Lib, now: int, f: Form): (o: Outcome)
    ensures o.Aborted? <==> !NotesAcceptable(lib, f.notes)
    ensures o.Checked? ==> (o.errs == [] <==>
      && ObjectId(Trim(f.professionalId)) && ObjectId(Trim(f.patientId))
      && StartChain(lib, now, f.startDate) == [] && EndChain(lib, f.endDate, f.startDate) == [])
    ensures o.Checked? ==>
      o.form == f.(professionalId := Trim(f.professionalId), patientId := Trim(f.patientId))
  {
    var errs := IdChain(ProfessionalId, f.professionalId) + IdChain(PatientId, f.patientId)
      + StartChain(lib, now, f.startDate) + EndChain(lib, f.endDate, f.startDate);
    var body := f.(professionalId := Trim(f.professionalId), patientId := Trim(f.patientId));
    if f.notes == "" then Checked(errs, body)
    else match NotesSanitization(lib, f.notes)
      case Throws(code) => Aborted(code)
      case Value(s) => Checked(errs, body.(notes := s))
  }

  /** `updateAppointmentNotesValidation`: the id, then notes required (not
      trimmed) and sanitized. */
  function UpdateNotes(lib: Oracles.Lib, id: string, notes: string): (o: Outcome)
    ensures o.Aborted? <==> !NotesAcceptable(lib, notes)
    ensures o.Checked? ==> (o.errs == [] <==> ObjectId(Trim(id)) && notes != "")
    ensures o.Checked? ==> o.form.notes == notes
  {
    var errs := IdParamErrors(id) + Check(notes != "", Notes, FormFieldsRequired);
    match NotesSanitization(lib, notes)
    case Throws(code) => Aborted(code)
    case Value(s) => Checked(errs, Form("", "", "", "", s))
  }

  // ---------------------------------------------------------------------
  // validateNotes.js

  /** The older middleware's verdict: go on with the notes, or answer. */
  datatype NotesGate = Pass(notes: string) | Stop(reply: Reply<()>)

  /** `validateNotes`: HTML is answered with NAME_INVALID_CHARACTERS, an
      over-long note with NAME_MIN_LENGTH and `meta {min: 0, max: 500}`. */
  function ValidateNotes(lib: Oracles.Lib, notes: string): (g: NotesGate)
    ensures g.Pass? <==> NotesAcceptable(lib, notes)
    ensures g.Pass? ==> g.notes == notes
    ensures g.Stop? ==> g.reply.status == 400 && g.reply.body.Invalid? && |g.reply.body.entries| == 1
    ensures g.Stop? && lib.stripTags(notes) != notes ==>
      g.reply.body.entries == [Err(Notes, NameInvalidCharacters)]
    ensures g.Stop? && lib.stripTags(notes) == notes ==>
      g.reply.body.entries == [FieldError(Notes, NameMinLength, Some(Bounds(0, NotesMax)))]
  {
    if notes == "" then Pass(notes)
    else
      var sanitized := lib.stripTags(notes);
      if notes != sanitized then
        Stop(ValidationError([Err(Notes, NameInvalidCharacters)], 400))
      else if JsLength(sanitized) > NotesMax then
        Stop(ValidationError([FieldError(Notes, NameMinLength, Some(Bounds(0, NotesMax)))], 400))
      else Pass(sanitized)
  }

  // ---------------------------------------------------------------------
  // Properties

  /** The middleware and the sanitizer that replaced it accept the same
      notes, and refuse the others for the same reason under different
      codes. */
  lemma NotesRulesAgree(lib: Oracles.Lib, notes: string)
    ensures ValidateNotes(lib, notes).Pass? <==> NotesSanitization(lib, notes).Value?
    ensures NotesSanitization(lib, notes) == Throws(NotesHtmlNotAllowed) <==>
      ValidateNotes(lib, notes) == Stop(ValidationError([Err(Notes, NameInvalidCharacters)], 400))
  {
  }

  /** The limit is inclusive: clean notes of exactly 500 units pass both. */
  lemma FiveHundredPasses(lib: Oracles.Lib, notes: string)
    requires lib.stripTags(notes) == notes && JsLength(notes) == NotesMax
    ensures ValidateNotes(lib, notes) == Pass(notes)
    ensures NotesSanitization(lib, notes) == Value(notes)
  {
  }

  /** A thrown notes error beats every collected one: the request never
      reaches `validate`. */
  lemma NotesThrowWins(lib: Oracles.Lib, now: int, f: Form)
    requires f.notes != "" && lib.stripTags(f.notes) != f.notes
    ensures Create(lib, now, f) == Aborted(NotesHtmlNotAllowed)
  {
  }

  /** An end date equal to the start is refused; one a millisecond later is
      accepted (when both are ISO 8601). */
  lemma EndStrictlyAfterStart(lib: Oracles.Lib, endRaw: string, startRaw: string, s: int, e: int)
    requires lib.isISO8601(endRaw) && endRaw != ""
    requires lib.parseDate(startRaw) == Some(s) && lib.parseDate(endRaw) == Some(e)
    ensures EndChain(lib, endRaw, startRaw) == [] <==> e > s
  {
  }

  /** A start at exactly the current instant is refused: the check is
      `<=`, not `<`. */
  lemma StartNowRefused(lib: Oracles.Lib, now: int, raw: string)
    requires raw != "" && lib.isISO8601(raw) && lib.parseDate(raw) == Some(now)
    ensures StartChain(lib, now, raw) == [Err(StartDate, DateMustBeFuture)]
  {
  }

  /** An end at the same instant as the start is refused with
      END_DATE_AFTER_START. */
  lemma EndAtStartRefused(lib: Oracles.Lib, endRaw: string, startRaw: string, t: int)
    requires endRaw != "" && lib.isISO8601(endRaw)
    requires lib.parseDate(startRaw) == Some(t) && lib.parseDate(endRaw) == Some(t)
    ensures EndChain(lib, endRaw, startRaw) == [Err(EndDate, EndDateAfterStart)]
  {
  }

  /** A start date the Date constructor cannot read, but that isISO8601
      accepts, passes the future check whatever the time. */
  lemma UnreadableStartPasses(lib: Oracles.Lib, now: int, raw: string)
    requires raw != "" && lib.isISO8601(raw) && lib.parseDate(raw).None?
    ensures StartChain(lib, now, raw) == []
  {
  }
}
