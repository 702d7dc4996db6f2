/** The Patient Mongoose schema: setters and defaults applied on
    assignment, then one validation fault per path (the first failing
    validator, `required` first), then the unique indexes on save. */
module PatientSchema {
  import opened Common
  import opened Envelope
  import opened Patterns
  import Oracles
  import EmailSyntax

  const DefaultImageUrl: string :=
    "https://res.cloudinary.com/dt7uhxeuk/image/upload/v1758209486/professionals/jqluodx877l67l1gmktx.png"

  /** The values given to `new Patient({...})`; `None` is `undefined`. */
  datatype Input = Input(
    firstName: Option<string>, lastName: Option<string>, email: Option<string>,
    phone: Option<string>, birthDate: Option<string>, imageUrl: Option<string>)

  /** A date path: unset (`undefined`, `null` or `''`), a cast instant, or a
      value the Date cast refused. */
  datatype DateValue = Unset | At(t: int) | Uncastable

  /** The document after the `lowercase`/`trim` setters, the Date cast and
      the `imageUrl` default. */
  datatype Doc = Doc(
    firstName: Option<string>, lastName: Option<string>, email: Option<string>,
    phone: Option<string>, birthDate: DateValue, imageUrl: Option<string>)

  /** Why a path failed validation; `Mismatch` carries the custom message. */
  datatype Fault = Required | TooLong(max: nat) | Mismatch(message: string) | CastFailed

  function MapOption(v: Option<string>, f: string -> string): Option<string>
  {
    if v.Some? then Some(f(v.value)) else None
  }

  function CastDate(v: Option<string>, lib: Oracles.Lib): DateValue
  {
    if v.None? || v.value == "" then Unset
    else match lib.parseDate(v.value)
      case Some(t) => At(t)
      case None => Uncastable
  }

  /** Assignment: email is lower-cased, phone trimmed, birthDate cast, and a
      missing imageUrl takes the default. */
  function Prepare(i: Input, lib: Oracles.Lib): (d: Doc)
    ensures d.email.Some? ==> IsLowerCased(d.email.value)
    ensures i.phone.Some? ==> d.phone == Some(Trim(i.phone.value))
    ensures i.phone.None? ==> d.phone.None?
    ensures i.imageUrl.None? ==> d.imageUrl == Some(DefaultImageUrl)
    ensures i.imageUrl.Some? ==> d.imageUrl == i.imageUrl
    ensures d.firstName == i.firstName && d.lastName == i.lastName
  {
    var email := MapOption(i.email, Lower);
    Doc(i.firstName, i.lastName, email, MapOption(i.phone, Trim),
        CastDate(i.birthDate, lib),
        if i.imageUrl.Some? then i.imageUrl else Some(DefaultImageUrl))
  }

  /** A required string path: `undefined` and `''` fail `required`; then an
      optional `maxlength` on the UTF-16 length; then the custom pattern. */
  function StringFault(v: Option<string>, maxLength: nat, pattern: string -> bool, message: string -> string): Option<Fault>
  {
    if v.None? || v.value == "" then Some(Required)
    else if maxLength > 0 && JsLength(v.value) > maxLength then Some(TooLong(maxLength))
    else if !pattern(v.value) then Some(Mismatch(message(v.value)))
    else None
  }

  function DateFault(v: DateValue): Option<Fault>
  {
    match v
    case Unset => Some(Required)
    case Uncastable => Some(CastFailed)
    case At(_) => None
  }

  function Put(m: map<Name, Fault>, n: Name, f: Option<Fault>): map<Name, Fault>
  {
    if f.Some? then m[n := f.value] else m
  }

  function FirstNameFault(d: Doc): Option<Fault> { StringFault(d.firstName, 50, _ => true, _ => "") }
  function LastNameFault(d: Doc): Option<Fault> { StringFault(d.lastName, 50, _ => true, _ => "") }
  function EmailFault(d: Doc): Option<Fault>
  {
    StringFault(d.email, 50, SchemaEmail, v => v + " is not a valid email!")
  }
  function PhoneFault(d: Doc): Option<Fault>
  {
    StringFault(d.phone, 0, v => PlusDigits(v, 7, 15), v => v + " is not a valid phone number!")
  }
  function ImageFault(d: Doc): Option<Fault> { StringFault(d.imageUrl, 0, _ => true, _ => "") }

  /** Each failing path with its first fault. */
  function Faults(d: Doc): map<Name, Fault>
  {
    var m0 := Put(map[], FirstName, FirstNameFault(d));
    var m1 := Put(m0, LastName, LastNameFault(d));
    var m2 := Put(m1, Email, EmailFault(d));
    var m3 := Put(m2, Phone, PhoneFault(d));
    var m4 := Put(m3, BirthDate, DateFault(d.birthDate));
    Put(m4, ImageUrl, ImageFault(d))
  }

  lemma FaultsKeys(d: Doc)
    ensures FirstName in Faults(d) <==> FirstNameFault(d).Some?
    ensures LastName in Faults(d) <==> LastNameFault(d).Some?
    ensures Email in Faults(d) <==> EmailFault(d).Some?
    ensures Phone in Faults(d) <==> PhoneFault(d).Some?
    ensures BirthDate in Faults(d) <==> DateFault(d.birthDate).Some?
    ensures ImageUrl in Faults(d) <==> ImageFault(d).Some?
    ensures Faults(d).Keys <= {FirstName, LastName, Email, Phone, BirthDate, ImageUrl}
  {
  }

  /** A missing last name faults `required`. */
  lemma NoLastName(d: Doc)
    requires d.lastName.None?
    ensures LastName in Faults(d) && Faults(d)[LastName] == Required
  {
    assert LastNameFault(d) == Some(Required);
  }

  /** A non-empty phone off the pattern faults with the custom message. */
  lemma PhoneOffPattern(d: Doc)
    requires d.phone.Some? && d.phone.value != "" && !PlusDigits(d.phone.value, 7, 15)
    ensures Phone in Faults(d) && Faults(d)[Phone] == Mismatch(d.phone.value + " is not a valid phone number!")
  {
    assert PhoneFault(d) == Some(Mismatch(d.phone.value + " is not a valid phone number!"));
  }

  /** A stored patient, or why `save` refused it. */
  datatype Saved =
    | Stored(store: map<string, Doc>)
    | Refused(faults: map<Name, Fault>)
    | DuplicateKey

  /** `email` and `phone` carry unique indexes. */
  predicate Clashes(store: map<string, Doc>, d: Doc)
  {
    exists k | k in store :: store[k].email == d.email || store[k].phone == d.phone
  }

  /** `new Patient(input).save()` under id `id`. */
  function Save(store: map<string, Doc>, id: string, i: Input, lib: Oracles.Lib): (r: Saved)
    requires id !in store
    ensures r.Refused? <==> Faults(Prepare(i, lib)) != map[]
    ensures r.Refused? ==> r.faults == Faults(Prepare(i, lib))
    ensures r.DuplicateKey? <==> Faults(Prepare(i, lib)) == map[] && Clashes(store, Prepare(i, lib))
    ensures r.Stored? ==> r.store == store[id := Prepare(i, lib)] && !Clashes(store, Prepare(i, lib))
  {
    var d := Prepare(i, lib);
    var faults := Faults(d);
    if faults != map[] then Refused(faults)
    else if Clashes(store, d) then DuplicateKey
    else Stored(store[id := d])
  }

  // ---------------------------------------------------------------------
  // Properties

  /** A first or last name is accepted iff it is a non-empty string of at
      most 50 UTF-16 units. */
  lemma NameRule(i: Input, lib: Oracles.Lib)
    ensures FirstName !in Faults(Prepare(i, lib)) <==>
      i.firstName.Some? && i.firstName.value != "" && JsLength(i.firstName.value) <= 50
    ensures LastName !in Faults(Prepare(i, lib)) <==>
      i.lastName.Some? && i.lastName.value != "" && JsLength(i.lastName.value) <= 50
  {
    FaultsKeys(Prepare(i, lib));
  }

  /** A missing last name is a validation fault, whatever else is given. */
  lemma MissingLastNameFails(store: map<string, Doc>, id: string, i: Input, lib: Oracles.Lib)
    requires id !in store && i.lastName.None?
    ensures Save(store, id, i, lib).Refused?
    ensures Faults(Prepare(i, lib))[LastName] == Required
  {
    NoLastName(Prepare(i, lib));
  }

  /** The phone path is accepted iff, once trimmed, it is `^\+?\d{7,15}$`. */
  lemma PhoneRule(i: Input, lib: Oracles.Lib)
    ensures Phone !in Faults(Prepare(i, lib)) <==> i.phone.Some? && PlusDigits(Trim(i.phone.value), 7, 15)
  {
    FaultsKeys(Prepare(i, lib));
  }

  /** A phone that is non-empty once trimmed but does not match is refused
      with the custom message, which quotes the trimmed value. */
  lemma PhoneMismatch(i: Input, lib: Oracles.Lib)
    requires i.phone.Some? && Trim(i.phone.value) != "" && !PlusDigits(Trim(i.phone.value), 7, 15)
    ensures Faults(Prepare(i, lib))[Phone] == Mismatch(Trim(i.phone.value) + " is not a valid phone number!")
  {
    var d := Prepare(i, lib);
    assert d.phone == Some(Trim(i.phone.value));
    PhoneOffPattern(d);
  }

  lemma SixDigitFacts(p: string)
    requires |p| == 6 && forall i | 0 <= i < |p| :: '0' <= p[i] <= '9'
    ensures p != "" && Trim(p) == p && !PlusDigits(p, 7, 15)
  {
    assert NoWhite(p);
    TrimOfNoWhite(p);
    SixDigitsRejected(p);
  }

  /** `"123456"` is refused with the custom phone message. */
  lemma SixDigitPhoneFails(i: Input, lib: Oracles.Lib, p: string)
    requires p == "123456" && i.phone == Some(p)
    ensures Faults(Prepare(i, lib))[Phone] == Mismatch(p + " is not a valid phone number!")
  {
    SixDigitFacts(p);
    PhoneMismatch(i, lib);
  }

  /** The email path is accepted iff its lower-cased form is non-empty, at
      most 50 UTF-16 units and matches `^[^\s@]+@[^\s@]+\.[^\s@]+$`. */
  lemma EmailRule(i: Input, lib: Oracles.Lib)
    ensures Email !in Faults(Prepare(i, lib)) <==>
      i.email.Some? && var e := Lower(i.email.value);
      e != "" && JsLength(e) <= 50 && SchemaEmail(e)
  {
    FaultsKeys(Prepare(i, lib));
  }

  /** Without an imageUrl the stored document carries the default one, and
      the path does not fail. */
  lemma ImageDefault(i: Input, lib: Oracles.Lib)
    requires i.imageUrl.None?
    ensures Prepare(i, lib).imageUrl == Some(DefaultImageUrl)
    ensures ImageUrl !in Faults(Prepare(i, lib))
  {
    FaultsKeys(Prepare(i, lib));
  }

  /** A stored patient's email is lower-case and its phone trimmed. */
  lemma StoredNormalised(store: map<string, Doc>, id: string, i: Input, lib: Oracles.Lib)
    requires id !in store && Save(store, id, i, lib).Stored?
    ensures var d := Save(store, id, i, lib).store[id];
      d.email.Some? && IsLowerCased(d.email.value)
      && d.phone.Some? && d.phone.value == Trim(i.phone.value)
  {
    FaultsKeys(Prepare(i, lib));
  }

  /** Saving never overwrites: every earlier patient is still there, and
      none shares the new email or phone. */
  lemma SaveKeepsOthers(store: map<string, Doc>, id: string, i: Input, lib: Oracles.Lib, k: string)
    requires id !in store && Save(store, id, i, lib).Stored? && k in store
    ensures k in Save(store, id, i, lib).store && Save(store, id, i, lib).store[k] == store[k]
    ensures store[k].email != Prepare(i, lib).email && store[k].phone != Prepare(i, lib).phone
  {
  }

  // ---------------------------------------------------------------------
  // validateEmail and the schema pattern

  lemma LowerKeepsSchemaEmail(s: string)
    requires SchemaEmail(s)
    ensures SchemaEmail(Lower(s))
  {
    var k :| 0 < k < |s| && s[k] == '@' && NoWhiteNorAt(s[..k]) && DottedHost(s[k + 1..]);
    var d := s[k + 1..];
    var j :| 0 < j < |d| - 1 && d[j] == '.';
    var t := Lower(s);
    assert t[k] == '@';
    assert t[..k] == Lower(s[..k]);
    LowerPlain(s[..k]);
    assert t[k + 1..] == Lower(d);
    LowerPlain(d);
    assert Lower(d)[j] == '.';
    assert DottedHost(t[k + 1..]);
  }

  /** Lower-casing adds neither white space nor `@`. */
  lemma LowerPlain(x: string)
    requires NoWhiteNorAt(x)
    ensures NoWhiteNorAt(Lower(x))
  {
    forall i | 0 <= i < |x|
      ensures !IsWhite(Lower(x)[i]) && Lower(x)[i] != '@'
    {
      assert Lower(x)[i] == LowerChar(x[i]);
    }
  }

  lemma LocalIsPlain(l: string)
    requires EmailSyntax.AllLocalChars(l)
    ensures NoWhiteNorAt(l)
  {
    forall i | 0 <= i < |l|
      ensures !IsWhite(l[i]) && l[i] != '@'
    {
      assert EmailSyntax.IsLocalChar(l[i]);
    }
  }

  lemma SafeDomainIsDotted(d: string)
    requires EmailSyntax.SafeDomain(d)
    ensures DottedHost(d)
  {
    var j :| 0 < j < |d| && d[j] == '.' && EmailSyntax.AllDomainChars(d[..j])
      && EmailSyntax.AlphaLabel(d[j + 1..]);
    forall i | 0 <= i < |d|
      ensures EmailSyntax.IsDomainChar(d[i])
    {
      if i < j {
        assert d[i] == d[..j][i];
      } else if j < i {
        assert d[i] == d[j + 1..][i - j - 1];
      }
    }
    assert 0 < j < |d| - 1;
  }

  lemma SafePatternFitsSchema(s: string)
    requires EmailSyntax.SafePattern(s)
    ensures SchemaEmail(s)
  {
    var k :| 0 < k < |s| && s[k] == '@' && EmailSyntax.AllLocalChars(s[..k])
      && EmailSyntax.SafeDomain(s[k + 1..]);
    LocalIsPlain(s[..k]);
    SafeDomainIsDotted(s[k + 1..]);
  }

  /** An address `validateEmail` accepts also passes the schema pattern,
      before and after lower-casing. */
  lemma ValidatedEmailFitsSchema(s: string)
    requires EmailSyntax.ValidateEmail(Text(s))
    ensures SchemaEmail(s) && SchemaEmail(Lower(s))
  {
    assert EmailSyntax.PatternMatch(s);
    SafePatternFitsSchema(s);
    LowerKeepsSchemaEmail(s);
  }
}
