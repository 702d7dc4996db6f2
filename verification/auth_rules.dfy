/** The authentication validators: the API's login and change-password
    chains (`api/validators/auth.validators.js`, coded messages) and the
    older login and register chains (`middleware/validators/auth.validators.js`,
    English messages, sanitizers after the validators). */
module AuthRules {
  import opened Common
  import opened Envelope
  import opened Patterns
  import opened Chains
  import Oracles

  // ---------------------------------------------------------------------
  // api/validators/auth.validators.js

  /** `loginValidation`: email trimmed, required, an email; password required. */
  function LoginErrors(lib: Oracles.Lib, email: string, password: string): (errs: seq<FieldError>)
    ensures errs == [] <==> Trim(email) != "" && lib.isEmail(Trim(email)) && password != ""
    ensures forall e | e in errs :: e.field in {Email, Password}
  {
    var v := Trim(email);
    Check(v != "", Email, FormFieldsRequired) + Check(lib.isEmail(v), Email, EmailInvalidFormat)
    + Check(password != "", Password, FormFieldsRequired)
  }

  /** The API's minimum password length. */
  const MinPassword := 6

  /** `changePasswordValidation`: both required, the new one at least 6
      characters; neither is trimmed. */
  function ChangePasswordErrors(current: string, next: string): (errs: seq<FieldError>)
    ensures errs == [] <==> current != "" && |next| >= MinPassword
    ensures Err(NewPassword, PasswordMinLength) in errs <==> |next| < MinPassword
  {
    Check(current != "", CurrentPassword, FormFieldsRequired)
    + Check(next != "", NewPassword, FormFieldsRequired)
    + Check(|next| >= MinPassword, NewPassword, PasswordMinLength)
  }

  // ---------------------------------------------------------------------
  // middleware/validators/auth.validators.js

  const BadEmail := "Please provide a valid email"
  const ShortPassword := "Password must be at least 6 characters long"
  const NameRequired := "Name is required"
  const NameLength := "Name must be between 2 and 50 characters"
  const NeedsDigit := "Password must contain a number"
  const NeedsLower := "Password must contain a lowercase letter"
  const NeedsUpper := "Password must contain an uppercase letter"
  const Mismatch := "Passwords do not match"

  /** The chains' errors and the body their sanitizers leave. */
  datatype Checked = Checked(errs: seq<FieldError>, email: string, password: string, name: string)

  /** The older `loginValidation`: the raw email must be an email and is then
      normalized; the password is measured before it is trimmed. */
  function LegacyLogin(lib: Oracles.Lib, email: string, password: string): (c: Checked)
    ensures c.errs == [] <==> lib.isEmail(email) && |password| >= MinPassword
    ensures c.email == lib.normalizeEmail(email) && c.password == Trim(password)
  {
    Checked(
      Check(lib.isEmail(email), Email, Message(BadEmail))
      + Check(|password| >= MinPassword, Password, Message(ShortPassword)),
      lib.normalizeEmail(email), Trim(password), "")
  }

  /** The password rules of `registerValidation`, before the trim. */
  predicate StrongPassword(p: string)
  {
    |p| >= MinPassword && HasDigit(p) && HasLower(p) && HasUpper(p)
  }

  function PasswordChain(p: string): (errs: seq<FieldError>)
    ensures errs == [] <==> StrongPassword(p)
    ensures AllOn(errs, Password)
  {
    var a := Check(|p| >= MinPassword, Password, Message(ShortPassword));
    var b := Check(HasDigit(p), Password, Message(NeedsDigit));
    var c := Check(HasLower(p), Password, Message(NeedsLower));
    var d := Check(HasUpper(p), Password, Message(NeedsUpper));
    Concat3(a, b, c, Password);
    AllOnConcat(a + b + c, d, Password);
    assert |a + b + c + d| == |a + b + c| + |d|;
    a + b + c + d
  }

  /** The older `registerValidation`.  The chains run in order, so the
      `confirmPassword` check compares against the password as the password
      chain's `trim` left it. */
  function Register(lib: Oracles.Lib, name: string, email: string, password: string, confirm: string): (c: Checked)
    ensures c.errs == [] <==>
      && LengthIn(name, 2, 50) && lib.isEmail(email) && StrongPassword(password)
      && confirm == Trim(password)
    ensures c.name == Trim(name) && c.email == lib.normalizeEmail(email) && c.password == Trim(password)
  {
    var nameErrs := Check(name != "", PersonName, Message(NameRequired))
      + Check(LengthIn(name, 2, 50), PersonName, Message(NameLength));
    var emailErrs := Check(lib.isEmail(email), Email, Message(BadEmail));
    var stored := Trim(password);
    var confirmErrs := Check(confirm == stored, ConfirmPassword, Message(Mismatch));
    Checked(nameErrs + emailErrs + PasswordChain(password) + confirmErrs,
      lib.normalizeEmail(email), stored, Trim(name))
  }

  /** The register rules as evidently intended: the confirmation is compared
      with the password the user typed. */
  function RegisterIntended(lib: Oracles.Lib, name: string, email: string, password: string, confirm: string): (c: Checked)
    ensures c.errs == [] <==>
      && LengthIn(name, 2, 50) && lib.isEmail(email) && StrongPassword(password)
      && confirm == password
    ensures c.name == Trim(name) && c.email == lib.normalizeEmail(email) && c.password == Trim(password)
  {
    var nameErrs := Check(name != "", PersonName, Message(NameRequired))
      + Check(LengthIn(name, 2, 50), PersonName, Message(NameLength));
    var emailErrs := Check(lib.isEmail(email), Email, Message(BadEmail));
    var confirmErrs := Check(confirm == password, ConfirmPassword, Message(Mismatch));
    Checked(nameErrs + emailErrs + PasswordChain(password) + confirmErrs,
      lib.normalizeEmail(email), Trim(password), Trim(name))
  }

  // ---------------------------------------------------------------------
  // Properties

  /** As written, a password typed with surrounding white space and
      confirmed identically is refused with "Passwords do not match". */
  lemma PaddedConfirmRefused(lib: Oracles.Lib, name: string, email: string, password: string)
    requires Trim(password) != password
    ensures Err(ConfirmPassword, Message(Mismatch)) in Register(lib, name, email, password, password).errs
  {
    var c := Register(lib, name, email, password, password);
    var nameErrs := Check(name != "", PersonName, Message(NameRequired))
      + Check(LengthIn(name, 2, 50), PersonName, Message(NameLength));
    var emailErrs := Check(lib.isEmail(email), Email, Message(BadEmail));
    assert c.errs == nameErrs + emailErrs + PasswordChain(password) + [Err(ConfirmPassword, Message(Mismatch))];
  }

  /** With the intended rule, confirming the typed password never reports a
      mismatch. */
  lemma IntendedConfirmAccepted(lib: Oracles.Lib, name: string, email: string, password: string)
    ensures Err(ConfirmPassword, Message(Mismatch)) !in RegisterIntended(lib, name, email, password, password).errs
  {
    var nameErrs := Check(name != "", PersonName, Message(NameRequired))
      + Check(LengthIn(name, 2, 50), PersonName, Message(NameLength));
    var emailErrs := Check(lib.isEmail(email), Email, Message(BadEmail));
    var pw := PasswordChain(password);
    assert RegisterIntended(lib, name, email, password, password).errs == nameErrs + emailErrs + pw + [];
    AllOnConcat(Check(name != "", PersonName, Message(NameRequired)),
      Check(LengthIn(name, 2, 50), PersonName, Message(NameLength)), PersonName);
    NotOnConfirm(nameErrs, emailErrs, pw);
  }

  /** Errors on the name, the email and the password are none on the
      confirmation. */
  lemma NotOnConfirm(a: seq<FieldError>, b: seq<FieldError>, c: seq<FieldError>)
    requires AllOn(a, PersonName) && AllOn(b, Email) && AllOn(c, Password)
    ensures Err(ConfirmPassword, Message(Mismatch)) !in a + b + c + []
  {
    assert a + b + c + [] == a + (b + c);
  }

  /** Length is measured before trimming: a password of six spaces passes
      the login length check and is left empty. */
  lemma LoginLengthBeforeTrim(lib: Oracles.Lib, email: string, password: string)
    requires lib.isEmail(email) && |password| >= MinPassword && Trim(password) == []
    ensures LegacyLogin(lib, email, password).errs == []
    ensures LegacyLogin(lib, email, password).password == []
  {
  }
}
