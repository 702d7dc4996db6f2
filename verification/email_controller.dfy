/** `POST /api/sendEmail` (`sendEmailController`): the body is checked
    against a zod schema, then the email is sent either through an internal
    template or with the subject and bodies given, and the service's errors
    are turned into replies. */
module EmailController {
  import opened Common
  import opened Envelope
  import ES = EmailService

  /** A body key that should hold a string. */
  datatype Value = Absent | Str(s: string) | NotString

  /** The `data` key: absent, an object (of which the templates read the
      first name and the portal address), or anything else. */
  datatype DataValue = NoData | Object(fields: ES.WelcomeData) | NotObject

  datatype Request = Request(to: Value, subject: Value, html: Value, text: Value, template: Value, data: DataValue)

  /** `req.body || {}`: no body reads as an empty object; a body that is
      not an object fails the schema as a whole. */
  datatype Input = NoBody | Fields(request: Request) | NotAnObject

  const EmptyRequest := Request(Absent, Absent, Absent, Absent, Absent, NoData)

  // ---------------------------------------------------------------------
  // The schema

  /** The kinds of zod issue the schema can raise. */
  datatype Kind = Required | WrongType | BadEmail | TooSmall(min: nat) | TooBig(max: nat) | BadOption

  /** One zod issue: the joined path ("" for the body itself), its kind and
      its message. */
  datatype Issue = Issue(path: string, kind: Kind, message: string)

  /** The message `to`'s length check carries instead of zod's own. */
  const InvalidFormatKey := "EMAIL_INVALID_FORMAT"

  /** The body the schema accepts, stated key by key: `to` a string zod
      takes for an email with at least five UTF-16 units; `subject`, when
      given, a string of 1 to 150; `html` and `text`, when given, strings;
      `template`, when given, one of the two template names; `data`, when
      given, an object. */
  predicate Conforms(r: Request, isEmail: string -> bool)
  {
    && r.to.Str? && isEmail(r.to.s) && JsLength(r.to.s) >= 5
    && (r.subject.Str? ==> 1 <= JsLength(r.subject.s) <= 150) && !r.subject.NotString?
    && !r.html.NotString? && !r.text.NotString?
    && (r.template.Str? ==> ES.TemplateNamed(r.template.s).Some?) && !r.template.NotString?
    && !r.data.NotObject?
  }

  /** `z.string().email().min(5, {message: "EMAIL_INVALID_FORMAT"})`: both
      string checks run, the email check first. */
  function ToIssues(v: Value, isEmail: string -> bool, describe: Kind -> string): (issues: seq<Issue>)
    ensures issues == [] <==> v.Str? && isEmail(v.s) && JsLength(v.s) >= 5
    ensures forall k | 0 <= k < |issues| :: issues[k].path == "to"
    ensures v.Str? && JsLength(v.s) < 5 ==> issues[|issues| - 1] == Issue("to", TooSmall(5), InvalidFormatKey)
    ensures |issues| <= 2
  {
    match v
    case Absent => [Issue("to", Required, describe(Required))]
    case NotString => [Issue("to", WrongType, describe(WrongType))]
    case Str(s) =>
      (if isEmail(s) then [] else [Issue("to", BadEmail, describe(BadEmail))])
      + (if JsLength(s) < 5 then [Issue("to", TooSmall(5), InvalidFormatKey)] else [])
  }

  /** `z.string().min(1).max(150).optional()`. */
  function SubjectIssues(v: Value, describe: Kind -> string): (issues: seq<Issue>)
    ensures issues == [] <==> !v.NotString? && (v.Str? ==> 1 <= JsLength(v.s) <= 150)
    ensures |issues| <= 1 && forall k | 0 <= k < |issues| :: issues[k].path == "subject"
  {
    match v
    case Absent => []
    case NotString => [Issue("subject", WrongType, describe(WrongType))]
    case Str(s) =>
      if JsLength(s) < 1 then [Issue("subject", TooSmall(1), describe(TooSmall(1)))]
      else if JsLength(s) > 150 then [Issue("subject", TooBig(150), describe(TooBig(150)))]
      else []
  }

  /** `z.string().optional()`. */
  function OptionalIssues(key: string, v: Value, describe: Kind -> string): (issues: seq<Issue>)
    ensures issues == [] <==> !v.NotString?
    ensures issues != [] ==> issues == [Issue(key, WrongType, describe(WrongType))]
  {
    if v.NotString? then [Issue(key, WrongType, describe(WrongType))] else []
  }

  /** `z.enum(["patient_welcome", "appointment_booked"]).optional()`: a
      value that is not a string is of the wrong type, a string outside the
      list is not an option. */
  function TemplateIssues(v: Value, describe: Kind -> string): (issues: seq<Issue>)
    ensures issues == [] <==> !v.NotString? && (v.Str? ==> ES.TemplateNamed(v.s).Some?)
    ensures |issues| <= 1 && forall k | 0 <= k < |issues| :: issues[k].path == "template"
  {
    match v
    case Absent => []
    case NotString => [Issue("template", WrongType, describe(WrongType))]
    case Str(s) => if ES.TemplateNamed(s).Some? then [] else [Issue("template", BadOption, describe(BadOption))]
  }

  /** `z.object({}).passthrough().optional()`. */
  function DataIssues(v: DataValue, describe: Kind -> string): (issues: seq<Issue>)
    ensures issues == [] <==> !v.NotObject?
    ensures issues != [] ==> issues == [Issue("data", WrongType, describe(WrongType))]
  {
    if v.NotObject? then [Issue("data", WrongType, describe(WrongType))] else []
  }

  /** The issues of one request, key by key in the schema's order. */
  function RequestIssues(r: Request, isEmail: string -> bool, describe: Kind -> string): (issues: seq<Issue>)
    ensures issues == [] <==> Conforms(r, isEmail)
  {
    ToIssues(r.to, isEmail, describe) + SubjectIssues(r.subject, describe)
    + OptionalIssues("html", r.html, describe) + OptionalIssues("text", r.text, describe)
    + TemplateIssues(r.template, describe) + DataIssues(r.data, describe)
  }

  /** `schema.safeParse(req.body || {})`'s issues; a body that is not an
      object is one issue on the empty path. */
  function Issues(input: Input, isEmail: string -> bool, describe: Kind -> string): (issues: seq<Issue>)
    ensures input.NotAnObject? ==> issues == [Issue("", WrongType, describe(WrongType))]
    ensures input.NoBody? ==> issues == RequestIssues(EmptyRequest, isEmail, describe) && issues != []
    ensures input.Fields? ==> (issues == [] <==> Conforms(input.request, isEmail))
  {
    match input
    case NotAnObject => [Issue("", WrongType, describe(WrongType))]
    case NoBody => RequestIssues(EmptyRequest, isEmail, describe)
    case Fields(r) => RequestIssues(r, isEmail, describe)
  }

  /** One entry of `details`: the path joined with dots, or "payload" when
      it is empty; the code the message names in `VALIDATION_CODES`, or the
      message itself. */
  function Detail(i: Issue): (e: FieldError)
    ensures e.meta.None?
    ensures e.field == Payload <==> i.path == ""
    ensures i.path != "" ==> e.field == Path(i.path)
    ensures e.code == EmailInvalidFormat <==> i.message == InvalidFormatKey
    ensures i.message != InvalidFormatKey ==> e.code == Message(i.message)
  {
    FieldError(if i.path == "" then Payload else Path(i.path),
               if i.message == InvalidFormatKey then EmailInvalidFormat else Message(i.message), None)
  }

  function Details(issues: seq<Issue>): (details: seq<FieldError>)
    ensures |details| == |issues|
    ensures forall k | 0 <= k < |issues| :: details[k] == Detail(issues[k])
  {
    if issues == [] then [] else [Detail(issues[0])] + Details(issues[1..])
  }

  // ---------------------------------------------------------------------
  // Sending

  function TextOr(v: Value): string
  {
    if v.Str? then v.s else ""
  }

  function DataOf(v: DataValue): ES.WelcomeData
  {
    if v.Object? then v.fields else ES.WelcomeData(None, None)
  }

  /** What the handler asks of the service for a conforming body: a
      template send when a template is named, a plain send when a subject
      and some body are given, and nothing (`None`) otherwise.  `booked`
      is the appointment template's letter. */
  function Dispatch(cfg: ES.Config, deliver: (seq<string>, ES.Letter) -> ES.Delivery, booked: ES.Letter, r: Request)
    : (o: Option<ES.Outcome>)
    ensures r.template.Str? && r.template.s != "" ==>
      o == Some(ES.SendTemplate(cfg, deliver, r.template.s, ES.One(TextOr(r.to)), DataOf(r.data), booked))
    ensures !(r.template.Str? && r.template.s != "") ==>
      (o.None? <==> TextOr(r.subject) == "" || (TextOr(r.html) == "" && TextOr(r.text) == ""))
    ensures !(r.template.Str? && r.template.s != "") && o.Some? ==>
      o.value == ES.Send(cfg, deliver, ES.Message(ES.One(TextOr(r.to)),
        ES.Letter(TextOr(r.subject), TextOr(r.html), TextOr(r.text), [])))
  {
    if r.template.Str? && r.template.s != "" then
      Some(ES.SendTemplate(cfg, deliver, r.template.s, ES.One(TextOr(r.to)), DataOf(r.data), booked))
    else if TextOr(r.subject) == "" || (TextOr(r.html) == "" && TextOr(r.text) == "") then None
    else Some(ES.Send(cfg, deliver, ES.Message(ES.One(TextOr(r.to)),
      ES.Letter(TextOr(r.subject), TextOr(r.html), TextOr(r.text), []))))
  }

  /** The `catch`: a message naming a missing template is 400, the size
      error is 413 on `attachments`, anything else is 500 with the message
      (or "Unexpected error" when it is empty). */
  function Respond(o: ES.Outcome): (r: Reply<string>)
    ensures r.status == 200 <==> o.Sent?
    ensures o.Sent? ==> r == Success(o.id, EmailSent, 200)
    ensures r.status == 400 <==> o.Failed? && Includes(ES.FaultMessage(o.fault), ES.TemplateNotFoundMarker)
    ensures r.status == 400 ==> r == Error(EmailTemplateNotFound, 400)
    ensures r.status == 413 <==> o.Failed? && o.fault.TooLarge?
    ensures r.status == 413 ==> r == ValidationError([Err(Attachments, EmailTooLarge)], 413)
    ensures r.status == 500 ==>
      r.body.Fail? && r.body.code == EmailSendFailed && r.body.details.Some? && r.body.details.value != ""
    ensures r.status in {200, 400, 413, 500}
  {
    match o
    case Sent(id) => Success(id, EmailSent, 200)
    case Failed(f) =>
      var message := ES.FaultMessage(f);
      SizeMessageNamesNoTemplate(f);
      if Includes(message, ES.TemplateNotFoundMarker) then Error(EmailTemplateNotFound, 400)
      else if f.TooLarge? then ValidationError([Err(Attachments, EmailTooLarge)], 413)
      else Error(EmailSendFailed, 500, Some(if message == "" then "Unexpected error" else message))
  }

  lemma SizeMessageNamesNoTemplate(f: ES.Fault)
    ensures f.TooLarge? ==> !Includes(ES.FaultMessage(f), ES.TemplateNotFoundMarker)
  {
    if f.TooLarge? {
      ES.TooLargeIsNoTemplateMiss(f.actual, f.limit);
    }
  }

  /** `sendEmailController`.  `isEmail` is zod's email check and `describe`
      its default message for each kind of issue. */
  function Handle(cfg: ES.Config, deliver: (seq<string>, ES.Letter) -> ES.Delivery, booked: ES.Letter,
                  isEmail: string -> bool, describe: Kind -> string, input: Input): (r: Reply<string>)
    ensures Issues(input, isEmail, describe) != [] ==>
      r == ValidationError(Details(Issues(input, isEmail, describe)), 400)
    ensures input.Fields? && Conforms(input.request, isEmail) ==>
      match Dispatch(cfg, deliver, booked, input.request)
      case None => r == ValidationError([Err(Payload, FormFieldsRequired)], 400)
      case Some(o) => r == Respond(o)
  {
    var issues := Issues(input, isEmail, describe);
    if issues != [] then ValidationError(Details(issues), 400)
    else
      match Dispatch(cfg, deliver, booked, input.request)
      case None => ValidationError([Err(Payload, FormFieldsRequired)], 400)
      case Some(o) => Respond(o)
  }

  // ---------------------------------------------------------------------
  // Properties

  /** A short address is reported under the validation code, after zod's
      own email issue when it is not an email either. */
  lemma ShortAddressIsInvalidFormat(to: string, isEmail: string -> bool, describe: Kind -> string)
    requires JsLength(to) < 5
    ensures var d := Details(ToIssues(Str(to), isEmail, describe));
      d[|d| - 1] == Err(Path("to"), EmailInvalidFormat)
      && (isEmail(to) ==> |d| == 1)
  {
  }

  /** An empty body is missing its address: the reply names `to`. */
  lemma NoBodyNamesTo(cfg: ES.Config, deliver: (seq<string>, ES.Letter) -> ES.Delivery, booked: ES.Letter,
                      isEmail: string -> bool, describe: Kind -> string)
    ensures var r := Handle(cfg, deliver, booked, isEmail, describe, NoBody);
      && r.status == 400 && r.body.Invalid? && r.body.entries[0].field == Path("to")
      && (describe(Required) != InvalidFormatKey ==> r.body.entries[0] == Err(Path("to"), Message(describe(Required))))
  {
    var issues := Issues(NoBody, isEmail, describe);
    assert issues[0] == Issue("to", Required, describe(Required));
    assert Details(issues)[0] == Detail(issues[0]);
  }

  /** A conforming body only ever fails on size or at the provider: the
      address is never empty, a plain send has a subject, and a template
      send names a known template. */
  lemma OnlySizeOrProviderFails(cfg: ES.Config, deliver: (seq<string>, ES.Letter) -> ES.Delivery, booked: ES.Letter,
                                r: Request, isEmail: string -> bool)
    requires Conforms(r, isEmail)
    ensures var o := Dispatch(cfg, deliver, booked, r);
      o.Some? && o.value.Failed? ==> o.value.fault.TooLarge? || o.value.fault.ProviderFailed?
  {
    assert TextOr(r.to) != "";
  }

  /** With a conforming body, a "template not found" reply can only come
      from a provider whose error message names the marker. */
  lemma TemplateMissIsProviderMessage(cfg: ES.Config, deliver: (seq<string>, ES.Letter) -> ES.Delivery, booked: ES.Letter,
                                      r: Request, isEmail: string -> bool, describe: Kind -> string)
    requires Conforms(r, isEmail)
    ensures var reply := Handle(cfg, deliver, booked, isEmail, describe, Fields(r));
      var o := Dispatch(cfg, deliver, booked, r);
      reply == Error(EmailTemplateNotFound, 400) ==>
        o.Some? && o.value.Failed? && o.value.fault.ProviderFailed?
        && Includes(o.value.fault.message, ES.TemplateNotFoundMarker)
  {
    OnlySizeOrProviderFails(cfg, deliver, booked, r, isEmail);
    var o := Dispatch(cfg, deliver, booked, r);
    if o.Some? && o.value.Failed? && o.value.fault.TooLarge? {
      ES.TooLargeIsNoTemplateMiss(o.value.fault.actual, o.value.fault.limit);
    }
  }

  /** A letter over the cap is a 413 on `attachments`, never a missing
      template, whichever way it is sent. */
  lemma OversizeIs413(o: ES.Outcome)
    requires o.Failed? && o.fault.TooLarge?
    ensures Respond(o) == ValidationError([Err(Attachments, EmailTooLarge)], 413)
  {
    ES.TooLargeIsNoTemplateMiss(o.fault.actual, o.fault.limit);
  }

  /** A named template wins: the subject and bodies given with it are not
      looked at, not even the check that asks for them. */
  lemma TemplateIgnoresContent(cfg: ES.Config, deliver: (seq<string>, ES.Letter) -> ES.Delivery, booked: ES.Letter,
                               r: Request, subject: Value, html: Value, text: Value)
    requires r.template.Str? && r.template.s != ""
    ensures Dispatch(cfg, deliver, booked, r.(subject := subject, html := html, text := text))
         == Dispatch(cfg, deliver, booked, r)
    ensures Dispatch(cfg, deliver, booked, r).Some?
  {
  }

  /** A subject alone, which the service would send, is refused by the
      handler: it asks for an HTML or a text body too. */
  lemma SubjectOnlyRefused(cfg: ES.Config, deliver: (seq<string>, ES.Letter) -> ES.Delivery, booked: ES.Letter,
                           to: string, subject: string, isEmail: string -> bool, describe: Kind -> string)
    requires isEmail(to) && JsLength(to) >= 5 && 1 <= JsLength(subject) <= 150
    ensures Handle(cfg, deliver, booked, isEmail, describe, Fields(Request(Str(to), Str(subject), Absent, Absent, Absent, NoData)))
         == ValidationError([Err(Payload, FormFieldsRequired)], 400)
    ensures ES.Send(cfg, deliver, ES.Message(ES.One(to), ES.Letter(subject, "", "", []))) != ES.Failed(ES.MissingContent)
  {
    var req := Request(Str(to), Str(subject), Absent, Absent, Absent, NoData);
    assert Conforms(req, isEmail);
    assert Dispatch(cfg, deliver, booked, req).None?;
    assert subject != "";
  }

  /** Outside production, an address off the whitelist is answered 200
      with the sandbox id and nothing reaches the provider. */
  lemma SandboxAnswers200(cfg: ES.Config, deliver: (seq<string>, ES.Letter) -> ES.Delivery, booked: ES.Letter,
                          to: string, subject: string, html: string, isEmail: string -> bool, describe: Kind -> string)
    requires isEmail(to) && JsLength(to) >= 5 && 1 <= JsLength(subject) <= 150 && html != ""
    requires !ES.CanSend(cfg, [to]) && !ES.TooBig(cfg, ES.Letter(subject, html, "", []))
    ensures Handle(cfg, deliver, booked, isEmail, describe, Fields(Request(Str(to), Str(subject), Str(html), Absent, Absent, NoData)))
         == Success(ES.SandboxId, EmailSent, 200)
  {
    var req := Request(Str(to), Str(subject), Str(html), Absent, Absent, NoData);
    assert Conforms(req, isEmail);
    assert to != "" && subject != "";
    assert ES.NormalizeTo(ES.One(to)) == [to];
    assert Dispatch(cfg, deliver, booked, req) == Some(ES.Send(cfg, deliver, ES.Message(ES.One(to), ES.Letter(subject, html, "", []))));
  }
}
