/** The email facade (`emailService`): it normalises the recipients,
    enforces an optional size cap, and outside production sends only to
    whitelisted addresses, answering the fixed id "sandbox-skip" for the
    rest.  The provider behind it is a parameter. */
module EmailService {
  import opened Common
  import Welcome

  // ---------------------------------------------------------------------
  // Configuration

  /** The environment variables the facade reads once, at start-up;
      `maxMb` is `EMAIL_MAX_TOTAL_SIZE_MB` as a whole number. */
  datatype Env = Env(enabled: string, whitelist: string, maxMb: int)

  datatype Config = Config(enabled: bool, whitelist: seq<string>, maxBytes: nat)

  /** A whitelist rule: non-empty, with no white space at either end (so
      trimming leaves it as it is, `Common.TrimOfTrimmed`). */
  predicate Clean(s: string)
  {
    s != "" && !IsWhite(s[0]) && !IsWhite(s[|s| - 1])
  }

  lemma CommaFreeTrim(s: string)
    ensures ',' !in s ==> ',' !in Trim(s)
  {
    if ',' in Trim(s) {
      TrimSubset(s, ',');
    }
  }

  /** `.map((s) => s.trim())` */
  function TrimAll(pieces: seq<string>): (ts: seq<string>)
    ensures |ts| == |pieces| && forall k | 0 <= k < |pieces| :: ts[k] == Trim(pieces[k])
  {
    if pieces == [] then [] else [Trim(pieces[0])] + TrimAll(pieces[1..])
  }

  /** `.filter(Boolean)` on strings: the non-empty ones, in order. */
  function NonEmpty(ss: seq<string>): (r: seq<string>)
    ensures forall x | x in r :: x != "" && x in ss
    ensures forall x | x in ss && x != "" :: x in r
  {
    if ss == [] then [] else (if ss[0] == "" then [] else [ss[0]]) + NonEmpty(ss[1..])
  }

  /** `EMAIL_DEV_WHITELIST.split(",").map(trim).filter(Boolean)` */
  function Whitelist(raw: string): (rules: seq<string>)
    ensures forall rule | rule in rules :: Clean(rule) && ',' !in rule
  {
    var pieces := Split(raw, ',');
    WhitelistRulesClean(pieces);
    NonEmpty(TrimAll(pieces))
  }

  lemma WhitelistRulesClean(pieces: seq<string>)
    requires forall k | 0 <= k < |pieces| :: ',' !in pieces[k]
    ensures forall rule | rule in NonEmpty(TrimAll(pieces)) :: Clean(rule) && ',' !in rule
  {
    var ts := TrimAll(pieces);
    forall rule | rule in NonEmpty(ts)
      ensures Clean(rule) && ',' !in rule
    {
      var k :| 0 <= k < |ts| && ts[k] == rule;
      CommaFreeTrim(pieces[k]);
    }
  }

  /** `MAX_TOTAL_SIZE_MB > 0 ? MAX_TOTAL_SIZE_MB * 1024 * 1024 : 0` */
  function MaxBytes(mb: int): (limit: nat)
    ensures limit == 0 <==> mb <= 0
    ensures limit > 0 ==> limit % 1048576 == 0 && limit / 1048576 == mb
  {
    if mb > 0 then mb * 1024 * 1024 else 0
  }

  /** The configuration: enabled only by the word "true" in any case. */
  function Load(env: Env): (cfg: Config)
    ensures cfg.enabled <==> Lower(env.enabled) == "true"
    ensures cfg.whitelist == Whitelist(env.whitelist) && cfg.maxBytes == MaxBytes(env.maxMb)
  {
    Config(Lower(env.enabled) == "true", Whitelist(env.whitelist), MaxBytes(env.maxMb))
  }

  // ---------------------------------------------------------------------
  // Recipients and the development whitelist

  /** `to`: absent (or any falsy value), one address, or a list. */
  datatype Recipient = NoRecipient | One(address: string) | Many(addresses: seq<string>)

  /** `normalizeTo`: a falsy `to` is no one, a string is one address, an
      array is taken as it is. */
  function NormalizeTo(to: Recipient): (list: seq<string>)
    ensures list == [] <==> to.NoRecipient? || to == One("") || to == Many([])
    ensures to.One? && to.address != "" ==> list == [to.address]
    ensures to.Many? ==> list == to.addresses
  {
    match to
    case NoRecipient => []
    case One(a) => if a == "" then [] else [a]
    case Many(list) => list
  }

  /** One rule against one lower-cased address: "*@domain" admits every
      address ending in "@domain", anything else only itself. */
  predicate RuleAdmits(rule: string, e: string)
  {
    var r := Lower(rule);
    if StartsWith(r, "*@") then EndsWith(e, r[1..]) else e == r
  }

  /** `isAllowedWhenDisabled`, case-insensitive on both sides. */
  predicate Allowed(whitelist: seq<string>, email: string)
  {
    exists k | 0 <= k < |whitelist| :: RuleAdmits(whitelist[k], Lower(email))
  }

  /** `canSend`: everything in production; otherwise only with a
      non-empty whitelist admitting every recipient. */
  predicate CanSend(cfg: Config, toList: seq<string>)
  {
    cfg.enabled || (|cfg.whitelist| > 0 && forall k | 0 <= k < |toList| :: Allowed(cfg.whitelist, toList[k]))
  }

  // ---------------------------------------------------------------------
  // Size

  /** The UTF-8 width of one character. */
  function CharBytes(c: char): (n: nat)
    ensures 1 <= n <= 4
    ensures n == 1 <==> c as int < 0x80
  {
    if c as int < 0x80 then 1 else if c as int < 0x800 then 2 else if c as int < 0x10000 then 3 else 4
  }

  /** `Buffer.byteLength(s, "utf8")` */
  function Utf8Len(s: string): (n: nat)
    ensures |s| <= n <= 4 * |s|
  {
    if s == [] then 0 else Utf8Len(s[..|s| - 1]) + CharBytes(s[|s| - 1])
  }

  /** An attachment's content: a string (often base64) or a buffer of
      `size` bytes. */
  datatype Content = Str(s: string) | Buf(size: nat)

  /** An attachment; an absent text field is "". */
  datatype Attachment = Attachment(filename: string, content: Content, contentType: string, contentId: string, path: string)

  /** What is sent, apart from the recipients; attachments may hold null
      entries, which are skipped. */
  datatype Letter = Letter(subject: string, html: string, text: string, attachments: seq<Option<Attachment>>)

  datatype Message = Message(to: Recipient, letter: Letter)

  function ContentBytes(c: Content): nat
  {
    match c
    case Str(s) => Utf8Len(s)
    case Buf(n) => n
  }

  function AttachmentBytes(a: Option<Attachment>): (n: nat)
    ensures a.None? ==> n == 0
  {
    match a
    case None => 0
    case Some(x) =>
      Utf8Len(x.filename) + ContentBytes(x.content) + Utf8Len(x.contentType) + Utf8Len(x.contentId) + Utf8Len(x.path)
  }

  function AttachmentsBytes(atts: seq<Option<Attachment>>): nat
  {
    if atts == [] then 0 else AttachmentsBytes(atts[..|atts| - 1]) + AttachmentBytes(atts[|atts| - 1])
  }

  /** `approxEmailSizeBytes`: the UTF-8 sizes of the subject, both bodies
      and every field of every attachment. */
  function ApproxSize(l: Letter): (n: nat)
    ensures n >= Utf8Len(l.subject) + Utf8Len(l.html) + Utf8Len(l.text)
  {
    Utf8Len(l.subject) + Utf8Len(l.html) + Utf8Len(l.text) + AttachmentsBytes(l.attachments)
  }

  // ---------------------------------------------------------------------
  // Sending

  /** Why a send fails, each with the message it is thrown with. */
  datatype Fault =
    | MissingRecipient | TooLarge(actual: nat, limit: nat) | MissingContent
    | TemplateRequired | TemplateNotFound | ProviderFailed(message: string)

  /** Decimal digits of `n`. */
  function Decimal(n: nat): (d: string)
    ensures d != [] && forall i | 0 <= i < |d| :: '0' <= d[i] <= '9'
  {
    if n < 10 then ["0123456789"[n]] else Decimal(n / 10) + ["0123456789"[n % 10]]
  }

  const TemplateNotFoundMarker := "EMAIL_TEMPLATE_NOT_FOUND"

  function FaultMessage(f: Fault): string
  {
    match f
    case MissingRecipient => "MISSING_RECIPIENT"
    case TooLarge(a, m) => "EMAIL_TOO_LARGE: " + Decimal(a) + " bytes > " + Decimal(m)
    case MissingContent => "MISSING_CONTENT"
    case TemplateRequired => "TEMPLATE_REQUIRED"
    case TemplateNotFound => TemplateNotFoundMarker
    case ProviderFailed(m) => m
  }

  datatype Outcome = Sent(id: string) | Failed(fault: Fault)

  /** What the provider adapter answers: the message id, or the message of
      the error it throws. */
  datatype Delivery = Delivered(id: string) | Threw(message: string)

  const SandboxId := "sandbox-skip"

  /** The cap, when one is configured, is exceeded strictly. */
  predicate TooBig(cfg: Config, l: Letter)
  {
    cfg.maxBytes > 0 && ApproxSize(l) > cfg.maxBytes
  }

  /** `sendRaw`: no recipient fails first; then a letter strictly larger
      than a configured cap fails; then a recipient the configuration does
      not allow turns the send into a sandbox skip; only the rest reach the
      provider `deliver`. */
  function SendRaw(cfg: Config, deliver: (seq<string>, Letter) -> Delivery, m: Message): (r: Outcome)
    ensures r.Failed? ==> r.fault.MissingRecipient? || r.fault.TooLarge? || r.fault.ProviderFailed?
    ensures r == Failed(MissingRecipient) <==> NormalizeTo(m.to) == []
    ensures r.Failed? && r.fault.TooLarge? <==> NormalizeTo(m.to) != [] && TooBig(cfg, m.letter)
    ensures r.Failed? && r.fault.TooLarge? ==> r.fault == TooLarge(ApproxSize(m.letter), cfg.maxBytes)
    ensures NormalizeTo(m.to) != [] && !TooBig(cfg, m.letter) && !CanSend(cfg, NormalizeTo(m.to)) ==>
      r == Sent(SandboxId)
    ensures NormalizeTo(m.to) != [] && !TooBig(cfg, m.letter) && CanSend(cfg, NormalizeTo(m.to)) ==>
      match deliver(NormalizeTo(m.to), m.letter)
      case Delivered(id) => r == Sent(id)
      case Threw(message) => r == Failed(ProviderFailed(message))
  {
    var toList := NormalizeTo(m.to);
    if toList == [] then Failed(MissingRecipient)
    else if TooBig(cfg, m.letter) then Failed(TooLarge(ApproxSize(m.letter), cfg.maxBytes))
    else if !CanSend(cfg, toList) then Sent(SandboxId)
    else match deliver(toList, m.letter)
      case Delivered(id) => Sent(id)
      case Threw(message) => Failed(ProviderFailed(message))
  }

  /** `send`: a letter with no subject and no body fails before anything
      else. */
  function Send(cfg: Config, deliver: (seq<string>, Letter) -> Delivery, m: Message): (r: Outcome)
    ensures r == Failed(MissingContent) <==> m.letter.subject == "" && m.letter.html == "" && m.letter.text == ""
    ensures !(m.letter.subject == "" && m.letter.html == "" && m.letter.text == "") ==> r == SendRaw(cfg, deliver, m)
  {
    if m.letter.subject == "" && m.letter.html == "" && m.letter.text == "" then Failed(MissingContent)
    else SendRaw(cfg, deliver, m)
  }

  /** The data the welcome template reads. */
  datatype WelcomeData = WelcomeData(firstName: Option<string>, portalUrl: Option<string>)

  /** The welcome template's output as a letter, without attachments. */
  function WelcomeLetter(data: WelcomeData): (l: Letter)
    ensures l.attachments == [] && l.subject != ""
  {
    var w := Welcome.Render(data.firstName, data.portalUrl);
    Letter(w.subject, w.html, w.text, [])
  }

  /** The internal templates. */
  datatype Template = PatientWelcome | AppointmentBooked

  /** The names `sendTemplate` knows, exactly as written. */
  function TemplateNamed(name: string): (t: Option<Template>)
    ensures t == Some(PatientWelcome) <==> name == "patient_welcome"
    ensures t == Some(AppointmentBooked) <==> name == "appointment_booked"
  {
    if name == "patient_welcome" then Some(PatientWelcome)
    else if name == "appointment_booked" then Some(AppointmentBooked)
    else None
  }

  /** The letter a known template produces: the welcome letter from the
      data, or `booked`, the output of the appointment template (which is
      not part of this model). */
  function TemplateLetter(t: Template, data: WelcomeData, booked: Letter): (l: Letter)
    ensures t == AppointmentBooked ==> l == booked
    ensures t == PatientWelcome ==> l == WelcomeLetter(data)
  {
    match t
    case PatientWelcome => WelcomeLetter(data)
    case AppointmentBooked => booked
  }

  /** A rendered template letter goes out as `sendRaw` sends it, so it
      never fails for a template reason. */
  function SendRendered(cfg: Config, deliver: (seq<string>, Letter) -> Delivery, to: Recipient, l: Letter): (r: Outcome)
    ensures r == SendRaw(cfg, deliver, Message(to, l))
    ensures r != Failed(TemplateRequired) && r != Failed(TemplateNotFound)
  {
    SendRaw(cfg, deliver, Message(to, l))
  }

  /** `sendTemplate`: an empty name fails, an unknown one is not found, a
      known one renders its letter and sends it as `sendRaw` does. */
  function SendTemplate(cfg: Config, deliver: (seq<string>, Letter) -> Delivery, template: string, to: Recipient,
                        data: WelcomeData, booked: Letter): (r: Outcome)
    ensures template == "" ==> r == Failed(TemplateRequired)
    ensures r == Failed(TemplateNotFound) <==> template != "" && TemplateNamed(template).None?
    ensures template != "" && TemplateNamed(template).Some? ==>
      r == SendRaw(cfg, deliver, Message(to, TemplateLetter(TemplateNamed(template).value, data, booked)))
  {
    if template == "" then Failed(TemplateRequired)
    else
      var named := TemplateNamed(template);
      if named.None? then Failed(TemplateNotFound)
      else SendRendered(cfg, deliver, to, TemplateLetter(named.value, data, booked))
  }

  // ---------------------------------------------------------------------
  // Properties

  /** Sizes add up: the UTF-8 length of a concatenation, and of an
      attachment list, is the sum of the parts'. */
  lemma {:induction false} Utf8LenAppend(a: string, b: string)
    ensures Utf8Len(a + b) == Utf8Len(a) + Utf8Len(b)
    decreases |b|
  {
    if b == [] {
      assert a + b == a;
    } else {
      var b' := b[..|b| - 1];
      assert (a + b)[..|a + b| - 1] == a + b';
      assert (a + b)[|a + b| - 1] == b[|b| - 1];
      Utf8LenAppend(a, b');
    }
  }

  /** ASCII text takes one byte a character. */
  lemma {:induction false} AsciiSize(s: string)
    requires forall i | 0 <= i < |s| :: s[i] as int < 0x80
    ensures Utf8Len(s) == |s|
  {
    if s != [] {
      AsciiSize(s[..|s| - 1]);
    }
  }

  lemma {:induction false} AttachmentsAppend(a: seq<Option<Attachment>>, b: seq<Option<Attachment>>)
    ensures AttachmentsBytes(a + b) == AttachmentsBytes(a) + AttachmentsBytes(b)
    decreases |b|
  {
    if b == [] {
      assert a + b == a;
    } else {
      var b' := b[..|b| - 1];
      assert (a + b)[..|a + b| - 1] == a + b';
      assert (a + b)[|a + b| - 1] == b[|b| - 1];
      AttachmentsAppend(a, b');
    }
  }

  /** More attachments never make a letter smaller, so a letter over the
      cap stays over it; null entries add nothing. */
  lemma MoreAttachmentsNeverSmaller(cfg: Config, l: Letter, extra: seq<Option<Attachment>>)
    ensures ApproxSize(l.(attachments := l.attachments + extra)) >= ApproxSize(l)
    ensures TooBig(cfg, l) ==> TooBig(cfg, l.(attachments := l.attachments + extra))
    ensures ApproxSize(l.(attachments := l.attachments + [None])) == ApproxSize(l)
  {
    AttachmentsAppend(l.attachments, extra);
    AttachmentsAppend(l.attachments, [None]);
    var none: seq<Option<Attachment>> := [None];
    assert none[..0] == [];
    assert AttachmentsBytes(none) == 0;
  }

  /** The cap is strict and optional: a letter exactly at the cap passes,
      and no cap rejects nothing. */
  lemma CapBoundary(cfg: Config, deliver: (seq<string>, Letter) -> Delivery, m: Message)
    requires cfg.maxBytes == 0 || ApproxSize(m.letter) == cfg.maxBytes
    ensures !(SendRaw(cfg, deliver, m).Failed? && SendRaw(cfg, deliver, m).fault.TooLarge?)
  {
  }

  /** Splitting the whitelist at a comma splits the rules there. */
  lemma {:induction false} TrimAllAppend(p: seq<string>, q: seq<string>)
    ensures TrimAll(p + q) == TrimAll(p) + TrimAll(q)
  {
  }

  lemma {:induction false} NonEmptyAppend(p: seq<string>, q: seq<string>)
    ensures NonEmpty(p + q) == NonEmpty(p) + NonEmpty(q)
    decreases |p|
  {
    if p == [] {
      assert p + q == q;
    } else {
      assert (p + q)[0] == p[0];
      assert (p + q)[1..] == p[1..] + q;
      NonEmptyAppend(p[1..], q);
    }
  }

  lemma WhitelistAppend(a: string, b: string)
    ensures Whitelist(a + [','] + b) == Whitelist(a) + Whitelist(b)
  {
    SplitAround(a, b, ',');
    TrimAllAppend(Split(a, ','), Split(b, ','));
    NonEmptyAppend(TrimAll(Split(a, ',')), TrimAll(Split(b, ',')));
  }

  /** A single entry is one rule once trimmed; blanks are no rule. */
  lemma WhitelistOfOne(raw: string)
    requires ',' !in raw
    ensures Trim(raw) != "" ==> Whitelist(raw) == [Trim(raw)]
    ensures Trim(raw) == "" ==> Whitelist(raw) == []
  {
    assert Split(raw, ',') == [raw];
    assert TrimAll([raw]) == [Trim(raw)];
    assert NonEmpty([Trim(raw)]) == (if Trim(raw) == "" then [] else [Trim(raw)]) + NonEmpty([]);
  }

  lemma LowerAppend(a: string, b: string)
    ensures Lower(a + b) == Lower(a) + Lower(b)
  {
  }

  /** "*@domain" admits every mailbox at that domain, whatever the case of
      either side. */
  lemma WildcardAdmitsDomain(domain: string, local: string)
    ensures Allowed(["*@" + domain], local + "@" + domain)
  {
    LowerAppend("*@", domain);
    LowerAppend(local, "@" + domain);
    LowerAppend("@", domain);
    var r := Lower("*@" + domain);
    assert r == "*@" + Lower(domain);
    assert r[1..] == "@" + Lower(domain);
    assert RuleAdmits(["*@" + domain][0], Lower(local + "@" + domain));
  }

  /** An exact rule admits its address in any case, and nothing else. */
  lemma ExactRuleIgnoresCase(rule: string, email: string)
    requires !StartsWith(Lower(rule), "*@")
    ensures Allowed([rule], email) <==> Lower(email) == Lower(rule)
  {
    assert Allowed([rule], email) <==> RuleAdmits([rule][0], Lower(email));
  }

  /** Outside production with no whitelist the provider is never called:
      a send that passes the checks is skipped. */
  lemma NoWhitelistNeverDelivers(cfg: Config, deliver: (seq<string>, Letter) -> Delivery, m: Message)
    requires !cfg.enabled && cfg.whitelist == []
    ensures var r := SendRaw(cfg, deliver, m);
      r == Sent(SandboxId) || r == Failed(MissingRecipient) || (r.Failed? && r.fault.TooLarge?)
  {
  }

  /** One recipient the whitelist does not admit holds back the whole send. */
  lemma OneBlockedHoldsAll(cfg: Config, deliver: (seq<string>, Letter) -> Delivery, a: string, b: string, l: Letter)
    requires !cfg.enabled && !Allowed(cfg.whitelist, b) && !TooBig(cfg, l)
    ensures SendRaw(cfg, deliver, Message(Many([a, b]), l)) == Sent(SandboxId)
  {
    assert !CanSend(cfg, [a, b]) by {
      assert [a, b][1] == b;
    }
  }

  /** In production every send that passes the checks is the provider's. */
  lemma ProductionDelivers(cfg: Config, deliver: (seq<string>, Letter) -> Delivery, address: string, l: Letter)
    requires cfg.enabled && address != "" && !TooBig(cfg, l)
    ensures deliver([address], l).Delivered? ==>
      SendRaw(cfg, deliver, Message(One(address), l)) == Sent(deliver([address], l).id)
  {
  }

  /** Content is checked before recipients: an empty letter to no one
      fails for its content. */
  lemma ContentCheckedFirst(cfg: Config, deliver: (seq<string>, Letter) -> Delivery)
    ensures Send(cfg, deliver, Message(NoRecipient, Letter("", "", "", []))) == Failed(MissingContent)
    ensures SendRaw(cfg, deliver, Message(NoRecipient, Letter("", "", "", []))) == Failed(MissingRecipient)
  {
  }

  /** The value of a string of decimal digits. */
  function DigitsValue(d: string): nat
    requires forall i | 0 <= i < |d| :: '0' <= d[i] <= '9'
  {
    if d == [] then 0 else 10 * DigitsValue(d[..|d| - 1]) + (d[|d| - 1] as int - '0' as int)
  }

  /** The size in the message reads back as the number measured. */
  lemma {:induction false} DecimalRoundTrip(n: nat)
    ensures DigitsValue(Decimal(n)) == n
  {
    if n >= 10 {
      var d := Decimal(n);
      assert d[..|d| - 1] == Decimal(n / 10);
      DecimalRoundTrip(n / 10);
    }
  }

  /** A string lacking a character of `p` does not include `p`. */
  lemma MissingCharNotIncluded(s: string, p: string, c: char)
    requires c in p && c !in s
    ensures !Includes(s, p)
  {
    var j := IndexOf(p, c);
    forall i | 0 <= i <= |s| - |p|
      ensures !SliceAt(s, p, i)
    {
      assert s[i..i + |p|][j] == s[i + j] != p[j];
    }
  }

  /** The size error never reads as a missing template. */
  lemma TooLargeIsNoTemplateMiss(actual: nat, limit: nat)
    ensures !Includes(FaultMessage(TooLarge(actual, limit)), TemplateNotFoundMarker)
  {
    var a := Decimal(actual);
    var m := Decimal(limit);
    var s := "EMAIL_TOO_LARGE: " + a + " bytes > " + m;
    assert 'P' !in "EMAIL_TOO_LARGE: " && 'P' !in " bytes > ";
    assert 'P' !in a && 'P' !in m;
    assert TemplateNotFoundMarker[9] == 'P';
    MissingCharNotIncluded(s, TemplateNotFoundMarker, 'P');
  }
}
