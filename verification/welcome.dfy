/** The welcome email a new patient receives (`patientWelcomeTemplate`): a
    subject, an HTML body and a plain-text body, greeting the patient by
    first name and, when a portal address is known, linking to it. */
module Welcome {
  import opened Common

  datatype Rendered = Rendered(subject: string, html: string, text: string)

  /** `firstName || 'Paciente'`: an empty name reads as absent. */
  function SafeName(firstName: Option<string>): (n: string)
    ensures n != ""
    ensures firstName.Some? && firstName.value != "" ==> n == firstName.value
  {
    if firstName.Some? && firstName.value != "" then firstName.value else "Paciente"
  }

  /** A portal address is used when it is a non-empty string. */
  predicate HasPortal(portalUrl: Option<string>)
  {
    portalUrl.Some? && portalUrl.value != ""
  }

  const SubjectLead := "¡Bienvenido/a a IronHealth, "

  /** The HTML up to the place of the portal block. */
  function HtmlHead(name: string): string
  {
    HeadOpen + name + HeadClose
  }

  const HeadOpen :=
    "\n      <div style=\"font-family:system-ui,Arial,sans-serif;font-size:16px;line-height:1.5\">\n"
    + "        <h2>Hola "
  const HeadClose :=
    ",</h2>\n"
    + "        <p>Gracias por registrarte en <b>IronHealth</b>. Ya puedes gestionar tus citas y tus datos.</p>\n"
    + "        "

  /** The HTML after the portal block. */
  const HtmlFoot :=
    "\n        <p style=\"color:#6b7280;font-size:13px\">Este es un correo automático. Si no esperabas este mensaje, ignóralo.</p>\n"
    + "      </div>\n    "

  /** The button linking to the portal. */
  function AnchorBlock(url: string): (block: string)
    ensures Includes(block, "href=\"" + url + "\"")
  {
    var href := "href=\"" + url + "\"";
    var block := AnchorOpen + href + AnchorClose;
    assert SliceAt(block, href, |AnchorOpen|);
    block
  }

  const AnchorOpen := "\n          <p>\n            <a "
  const AnchorClose :=
    "\n               style=\"display:inline-block;padding:10px 14px;background:#2563eb;color:#fff;border-radius:8px;text-decoration:none\">\n"
    + "              Acceder al portal\n            </a>\n          </p>"

  /** Facts about three strings laid end to end. */
  lemma Parts(a: string, b: string, c: string, p: string)
    ensures StartsWith(a + b + c, a) && EndsWith(a + b + c, c)
    ensures (a + b + c)[..|a|] == a && (a + b + c)[|a|..] == b + c
    ensures Includes(b, p) ==> Includes(a + b + c, p)
  {
    assert (a + b + c)[..|a|] == a;
    assert (a + b + c)[|a| + |b|..] == c;
    if Includes(b, p) {
      var i :| 0 <= i <= |b| - |p| && SliceAt(b, p, i);
      assert (a + b + c)[|a| + i..|a| + i + |p|] == b[i..i + |p|];
      assert SliceAt(a + b + c, p, |a| + i);
    }
  }

  /** Cutting `a + c` after `a` and putting `m` in the cut gives `a + m + c`. */
  lemma Insert(a: string, m: string, c: string)
    ensures |a| <= |a + "" + c|
    ensures (a + "" + c)[..|a|] + m + (a + "" + c)[|a|..] == a + m + c
  {
    assert (a + "" + c)[..|a|] == a;
    assert (a + "" + c)[|a|..] == c;
  }

  /** Four pieces joined: the last one closes the string. */
  lemma JoinFour(lines: seq<string>, c: char)
    requires |lines| == 4
    ensures Join(lines, c) == lines[0] + [c] + lines[1] + [c] + lines[2] + [c] + lines[3]
  {
    assert lines[1..][1..] == lines[2..];
    assert lines[2..][1..] == lines[3..];
    assert Join(lines[3..], c) == lines[3];
    assert Join(lines[2..], c) == lines[2] + [c] + lines[3];
    assert Join(lines[1..], c) == lines[1] + [c] + (lines[2] + [c] + lines[3]);
  }

  /** The four lines of the text body. */
  function TextLines(name: string, portalUrl: Option<string>): seq<string>
  {
    ["Hola " + name + ",", "Gracias por registrarte en IronHealth.",
     if HasPortal(portalUrl) then "Acceso al portal: " + portalUrl.value else "", ""]
  }

  /** The HTML body: the portal block sits between the head and the foot,
      and holds the only link. */
  function Html(name: string, portalUrl: Option<string>): (html: string)
    ensures HasPortal(portalUrl) ==> Includes(html, "href=\"" + portalUrl.value + "\"")
    ensures StartsWith(html, HtmlHead(name)) && EndsWith(html, HtmlFoot)
  {
    var block := if HasPortal(portalUrl) then AnchorBlock(portalUrl.value) else "";
    var head := HtmlHead(name);
    Parts(head, block, HtmlFoot, "href=\"" + (if portalUrl.Some? then portalUrl.value else "") + "\"");
    head + block + HtmlFoot
  }

  /** The text body: the four lines joined with line breaks. */
  function Text(name: string, portalUrl: Option<string>): (text: string)
    ensures EndsWith(text, "\n")
  {
    var lines := TextLines(name, portalUrl);
    JoinFour(lines, '\n');
    Join(lines, '\n')
  }

  /** `patientWelcomeTemplate({firstName, portalUrl})` */
  function Render(firstName: Option<string>, portalUrl: Option<string>): (r: Rendered)
    ensures r.subject == SubjectLead + SafeName(firstName) + "!"
    ensures r.html == Html(SafeName(firstName), portalUrl)
    ensures r.text == Text(SafeName(firstName), portalUrl)
  {
    var name := SafeName(firstName);
    Rendered(SubjectLead + name + "!", Html(name, portalUrl), Text(name, portalUrl))
  }

  // ---------------------------------------------------------------------
  // Properties

  /** None of the fixed text holds a line break. */
  lemma FixedTextHasNoBreak()
    ensures '\n' !in "Hola " && '\n' !in ","
    ensures '\n' !in "Gracias por registrarte en IronHealth." && '\n' !in "Acceso al portal: "
  {
  }

  /** The text body splits back into its four lines, the last one empty,
      when neither the name nor the address holds a line break. */
  lemma {:induction false} TextRoundTrip(name: string, portalUrl: Option<string>)
    requires '\n' !in name
    requires portalUrl.Some? ==> '\n' !in portalUrl.value
    ensures Split(Text(name, portalUrl), '\n') == TextLines(name, portalUrl)
    ensures |Split(Text(name, portalUrl), '\n')| == 4 && Split(Text(name, portalUrl), '\n')[3] == ""
  {
    var lines := TextLines(name, portalUrl);
    FixedTextHasNoBreak();
    assert '\n' !in lines[0];
    assert '\n' !in lines[1];
    assert '\n' !in lines[2];
    JoinSplit(lines, '\n');
  }

  /** The HTML is the head, the block (empty without a portal) and the foot. */
  lemma HtmlShape(name: string, portalUrl: Option<string>)
    ensures HasPortal(portalUrl) ==> Html(name, portalUrl) == HtmlHead(name) + AnchorBlock(portalUrl.value) + HtmlFoot
    ensures !HasPortal(portalUrl) ==> Html(name, portalUrl) == HtmlHead(name) + "" + HtmlFoot
  {
  }

  /** With and without a portal the HTML differs only by the anchor block,
      inserted at the same place. */
  lemma AnchorIsTheOnlyDifference(name: string, url: string)
    requires url != ""
    ensures var without := Html(name, None);
      var k := |HtmlHead(name)|;
      k <= |without|
      && Html(name, Some(url)) == without[..k] + AnchorBlock(url) + without[k..]
  {
    HtmlShape(name, Some(url));
    HtmlShape(name, None);
    Insert(HtmlHead(name), AnchorBlock(url), HtmlFoot);
  }

  /** A missing and an empty first name give the same email. */
  lemma EmptyNameIsMissing(portalUrl: Option<string>)
    ensures Render(Some(""), portalUrl) == Render(None, portalUrl)
    ensures Render(None, portalUrl).subject == SubjectLead + "Paciente!"
  {
    assert SafeName(Some("")) == SafeName(None) == "Paciente";
  }
}
