/** The regular expressions the validators and the Patient schema test,
    each written as a predicate over the whole string (every pattern here is
    anchored with `^…$`). `\d` is `[0-9]` and `\s` is `Common.IsWhite`, as in
    JavaScript. */
module Patterns {
  import opened Common

  /** `[ÁÉÍÓÚáéíóúÑñÇç]`: the accented letters the name patterns admit. */
  predicate IsAccented(c: char)
  {
    c in "ÁÉÍÓÚáéíóúÑñÇç"
  }

  predicate IsLetter(c: char) { IsAlphaAscii(c) || IsAccented(c) }

  /** `[A-Za-zÁÉÍÓÚáéíóúÑñÇç\s]`: first and last names. */
  predicate NameChar(c: char) { IsLetter(c) || IsWhite(c) }

  /** `[A-Za-zÁÉÍÓÚáéíóúÑñÇç0-9\s.,ºª'\-/()#]`: street addresses. */
  predicate StreetChar(c: char)
  {
    IsLetter(c) || IsDigit(c) || IsWhite(c) || c in ".,ºª'-/()#"
  }

  /** `[A-Za-zÁÉÍÓÚáéíóúÑñÇç\s'-]`: cities. */
  predicate CityChar(c: char) { IsLetter(c) || IsWhite(c) || c == '\'' || c == '-' }

  /** `[A-Za-zÁÉÍÓÚáéíóúÑñÇç\s-]`: nationalities. */
  predicate NationalityChar(c: char) { IsLetter(c) || IsWhite(c) || c == '-' }

  /** `^[class]+$` for a character class given as a predicate. */
  predicate OneOrMore(s: string, inClass: char -> bool)
  {
    s != [] && forall i | 0 <= i < |s| :: inClass(s[i])
  }

  /** The digits after an optional leading `+`. */
  function AfterPlus(s: string): string
  {
    if s != [] && s[0] == '+' then s[1..] else s
  }

  /** `^\+?\d{lo,hi}$` */
  predicate PlusDigits(s: string, lo: nat, hi: nat)
  {
    var d := AfterPlus(s);
    lo <= |d| <= hi && AllDigits(d)
  }

  /** `^\+?[1-9]\d{1,14}$`: an E.164-style number. */
  predicate E164(s: string)
  {
    var d := AfterPlus(s);
    2 <= |d| <= 15 && AllDigits(d) && d[0] != '0'
  }

  /** `^\d{5}$` */
  predicate FiveDigits(s: string) { |s| == 5 && AllDigits(s) }

  /** `/^[a-fA-F0-9]{24}$/`.  validator.js `isMongoId` is taken to be the
      same test; it also admits a `0x` or `0h` prefix before 22 hex digits,
      which this predicate refuses. */
  predicate ObjectId(s: string)
  {
    |s| == 24 && forall i | 0 <= i < |s| :: IsHexDigit(s[i])
  }

  /** `/^[a-zA-Z0-9]+$/`, which is also what `isAlphanumeric` accepts. */
  predicate Alphanumeric(s: string) { s != [] && AllAlnum(s) }

  /** Unanchored `/[0-9]/`, `/[a-z]/` and `/[A-Z]/`. */
  predicate HasDigit(s: string) { exists i | 0 <= i < |s| :: IsDigit(s[i]) }
  predicate HasLower(s: string) { exists i | 0 <= i < |s| :: IsLowerAscii(s[i]) }
  predicate HasUpper(s: string) { exists i | 0 <= i < |s| :: IsUpperAscii(s[i]) }

  /** `[^\s@]+` without the length requirement. */
  predicate NoWhiteNorAt(s: string)
  {
    forall i | 0 <= i < |s| :: !IsWhite(s[i]) && s[i] != '@'
  }

  /** `[^\s@]+\.[^\s@]+` */
  predicate DottedHost(d: string)
  {
    NoWhiteNorAt(d) && exists j | 0 < j < |d| - 1 :: d[j] == '.'
  }

  /** `^[^\s@]+@[^\s@]+\.[^\s@]+$`, the Patient schema's email pattern. */
  predicate SchemaEmail(s: string)
  {
    exists k | 0 < k < |s| :: s[k] == '@' && NoWhiteNorAt(s[..k]) && DottedHost(s[k + 1..])
  }

  /** The create-time phone pattern and the update-time one disagree both
      ways: `+12` passes only the first, `0123456` only the second. */
  lemma PhonePatternsDiffer(a: string, b: string)
    requires a == "+12" && b == "0123456"
    ensures E164(a) && !PlusDigits(a, 7, 15)
    ensures !E164(b) && PlusDigits(b, 7, 15)
  {
    assert AfterPlus(a) == a[1..];
    assert AfterPlus(b) == b;
  }

  /** `^\+?\d{7,15}$` rejects six digits, plus sign or not. */
  lemma SixDigitsRejected(s: string)
    requires |s| == 6 || (|s| == 7 && s[0] == '+')
    ensures !PlusDigits(s, 7, 15)
  {
  }
}
