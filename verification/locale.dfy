/** The language and portal-link rules of the newer appointment creator
    (`appointments.controller.js`, `pickLang`, `PORTAL_BASE` and the
    appointment link it schedules in the booked-appointment email). */
module Locale {
  import opened Common

  datatype Lang = En | Es

  /** The tag the language is sent as. */
  function Tag(l: Lang): string
  {
    match l
    case En => "en"
    case Es => "es"
  }

  /** `pickLang`: a body `preferredLang` of "en" or "es" wins; otherwise the
      first two characters of `Accept-Language` (an absent header reads as
      ""), lower-cased, choose English iff they are "en"; Spanish otherwise. */
  function PickLang(preferred: Option<string>, acceptLanguage: string): (l: Lang)
    ensures preferred == Some("en") ==> l == En
    ensures preferred == Some("es") ==> l == Es
    ensures preferred != Some("en") && preferred != Some("es") ==>
      (l == En <==>
        |acceptLanguage| >= 2 && acceptLanguage[0] in "eE" && acceptLanguage[1] in "nN")
  {
    if preferred == Some("en") then En
    else if preferred == Some("es") then Es
    else
      var prefix := if |acceptLanguage| < 2 then acceptLanguage else acceptLanguage[..2];
      assert |prefix| == 2 ==> Lower(prefix) == [LowerChar(prefix[0]), LowerChar(prefix[1])];
      if Lower(prefix) == "en" then En else Es
  }

  /** `.replace(/\/+$/, '')`: every trailing '/' removed. */
  function StripTrailingSlashes(s: string): (r: string)
    ensures |r| <= |s| && r == s[..|r|]
    ensures r == [] || r[|r| - 1] != '/'
    ensures forall i | |r| <= i < |s| :: s[i] == '/'
  {
    if s != [] && s[|s| - 1] == '/' then StripTrailingSlashes(s[..|s| - 1]) else s
  }

  /** `process.env.PORTAL_URL || 'http://localhost:5173'` */
  const DefaultPortal := "http://localhost:5173"

  function PortalUrl(env: string): (url: string)
    ensures env != "" ==> url == env
    ensures env == "" ==> url == DefaultPortal
  {
    if env == "" then DefaultPortal else env
  }

  /** A deep link `${base}/${collection}/${id}` on the slash-stripped base. */
  function Link(env: string, collection: string, id: string): (link: string)
    ensures StartsWith(link, StripTrailingSlashes(PortalUrl(env)))
    ensures EndsWith(link, "/" + collection + "/" + id)
    ensures |link| == |StripTrailingSlashes(PortalUrl(env))| + |collection| + |id| + 2
  {
    StripTrailingSlashes(PortalUrl(env)) + "/" + collection + "/" + id
  }

  // ---------------------------------------------------------------------
  // Properties

  /** Stripping is idempotent. */
  lemma StripIdempotent(s: string)
    ensures StripTrailingSlashes(StripTrailingSlashes(s)) == StripTrailingSlashes(s)
  {
  }

  /** However many slashes end the configured base, the link is the same. */
  lemma {:induction false} SlashesDoNotMatter(base: string, n: nat)
    ensures StripTrailingSlashes(base + seq(n, _ => '/')) == StripTrailingSlashes(base)
  {
    var t := base + seq(n, _ => '/');
    if n == 0 {
      assert t == base;
    } else {
      assert t[|t| - 1] == '/';
      assert t[..|t| - 1] == base + seq(n - 1, _ => '/');
      SlashesDoNotMatter(base, n - 1);
    }
  }

  /** The base never ends in '/', so the link has a single '/' where the
      base meets the collection whenever the base has a character that is
      not a slash. */
  lemma NoDoubleSlash(env: string, collection: string, id: string)
    requires exists i | 0 <= i < |PortalUrl(env)| :: PortalUrl(env)[i] != '/'
    ensures var b := StripTrailingSlashes(PortalUrl(env));
      b != [] && Link(env, collection, id)[|b| - 1] != '/' && Link(env, collection, id)[|b|] == '/'
  {
    var u := PortalUrl(env);
    var b := StripTrailingSlashes(u);
    var i :| 0 <= i < |u| && u[i] != '/';
    assert i < |b|;
  }

  /** "EN-gb" and "en" choose English; "e" and "fr" choose Spanish. */
  lemma HeaderPrefix()
    ensures PickLang(None, "EN-gb") == En
    ensures PickLang(None, "e") == Es
    ensures PickLang(Some("fr"), "fr-FR") == Es
    ensures PickLang(Some("es"), "en-US") == Es
  {
  }
}
