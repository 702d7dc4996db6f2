/** `api/controllers/authControllers.js`: login, password change and logout.
    The login path as written reads `user.profileId._id`, which throws for a
    user whose profile reference is empty (every admin); `LoginIntended` is
    the behaviour the admin-login test describes. */
module Sessions {
  import opened Common
  import opened Envelope
  import opened Records
  import opened Chains
  import opened AuthMiddleware

  /** The `user` object of a login answer. */
  datatype UserView = UserView(id: Id, email: string, role: Role, profileId: Option<Id>, profile: Option<Id>)

  /** The login answer's data: `{token, user}`. */
  datatype LoginData = LoginData(token: string, user: UserView)

  /** The message of the TypeError thrown by reading `_id` of null. */
  const NullRead := "Cannot read properties of null (reading '_id')"

  /** The same for a user that `findById` did not find. */
  const NoUserRead := "Cannot read properties of null (reading 'password')"

  /** The missing-field errors of login: each absent field once, in order. */
  function LoginFieldErrors(email: string, password: string): (errs: seq<FieldError>)
    ensures errs == [] <==> email != "" && password != ""
    ensures Err(Email, FormFieldsRequired) in errs <==> email == ""
    ensures Err(Password, FormFieldsRequired) in errs <==> password == ""
  {
    Check(email != "", Email, FormFieldsRequired) + Check(password != "", Password, FormFieldsRequired)
  }

  /** `User.findOne({email, isActive: true})`: the email is matched as given. */
  function ActiveUser(users: seq<UserRecord>, email: string): (r: Option<nat>)
    ensures r.Some? ==> r.value < |users| && users[r.value].email == email && users[r.value].isActive
    ensures r.None? ==> forall j | 0 <= j < |users| :: !(users[j].email == email && users[j].isActive)
  {
    FirstUser(users, (u: UserRecord) => u.email == email && u.isActive)
  }

  /** `login` as written. */
  function Login(db: Db, crypto: Crypto, email: string, password: string): (r: Reply<LoginData>)
    ensures LoginFieldErrors(email, password) != [] ==>
      r == ValidationError(LoginFieldErrors(email, password))
    ensures r.status == 401 <==>
      LoginFieldErrors(email, password) == []
      && (ActiveUser(db.users, email).None?
          || !crypto.compare(password, db.users[ActiveUser(db.users, email).value].password))
    ensures r.status == 401 ==> r == Error(InvalidCredentials, 401)
    ensures r.status == 500 ==> r.body == Fail(InternalServerError, Some(NullRead))
    ensures (LoginFieldErrors(email, password) == [] && ActiveUser(db.users, email).Some?
             && crypto.compare(password, db.users[ActiveUser(db.users, email).value].password)) ==>
      (r.status == 200 <==> Populated(db, db.users[ActiveUser(db.users, email).value]).Some?)
      && (r.status != 200 ==> r.status == 500)
    ensures r.status == 200 ==>
      var u := db.users[ActiveUser(db.users, email).value];
      Populated(db, u).Some?
      && r.body == Ok(LoginSuccessful, LoginData(crypto.sign(Claims(u.id, u.role, u.profileId)),
                                                  UserView(u.id, u.email, u.role, u.profileId, u.profileId)))
  {
    var errs := LoginFieldErrors(email, password);
    if errs != [] then ValidationError(errs)
    else match ActiveUser(db.users, email)
      case None => Error(InvalidCredentials, 401)
      case Some(k) =>
        var u := db.users[k];
        if !crypto.compare(password, u.password) then Error(InvalidCredentials, 401)
        else match Populated(db, u)
          case None => Error(InternalServerError, 500, Some(NullRead))
          case Some(pid) =>
            var token := crypto.sign(Claims(u.id, u.role, Some(pid)));
            Success(LoginData(token, UserView(u.id, u.email, u.role, Some(pid), Some(pid))), LoginSuccessful, 200)
  }

  /** `login` with the null guard the admin test expects: a user without a
      populated profile logs in with `profileId` and `profile` null. */
  function LoginIntended(db: Db, crypto: Crypto, email: string, password: string): (r: Reply<LoginData>)
    ensures LoginFieldErrors(email, password) != [] ==>
      r == ValidationError(LoginFieldErrors(email, password))
    ensures r.status == 401 <==>
      LoginFieldErrors(email, password) == []
      && (ActiveUser(db.users, email).None?
          || !crypto.compare(password, db.users[ActiveUser(db.users, email).value].password))
    ensures r.status in {200, 400, 401}
    ensures (LoginFieldErrors(email, password) == [] && ActiveUser(db.users, email).Some?
             && crypto.compare(password, db.users[ActiveUser(db.users, email).value].password)) ==>
      r.status == 200
    ensures r.status == 200 ==>
      var u := db.users[ActiveUser(db.users, email).value];
      var p := Populated(db, u);
      r.body == Ok(LoginSuccessful, LoginData(crypto.sign(Claims(u.id, u.role, p)), UserView(u.id, u.email, u.role, p, p)))
  {
    var errs := LoginFieldErrors(email, password);
    if errs != [] then ValidationError(errs)
    else match ActiveUser(db.users, email)
      case None => Error(InvalidCredentials, 401)
      case Some(k) =>
        var u := db.users[k];
        if !crypto.compare(password, u.password) then Error(InvalidCredentials, 401)
        else
          var p := Populated(db, u);
          Success(LoginData(crypto.sign(Claims(u.id, u.role, p)), UserView(u.id, u.email, u.role, p, p)), LoginSuccessful, 200)
  }

  /** The users with the `k`-th one's password replaced. */
  function SetPassword(users: seq<UserRecord>, k: nat, hashed: string): (r: seq<UserRecord>)
    requires k < |users|
    ensures |r| == |users| && r[k].password == hashed
    ensures forall j | 0 <= j < |users| ::
      r[j].(password := users[j].password) == users[j] && (j != k ==> r[j] == users[j])
  {
    users[k := users[k].(password := hashed)]
  }

  /** The missing-field and length errors of a password change; the length
      is JavaScript's `.length` and carries `meta {min: 6}`. */
  function ChangeFieldErrors(current: string, next: string): (errs: seq<FieldError>)
    ensures errs == [] <==> current != "" && next != "" && JsLength(next) >= 6
    ensures FieldError(NewPassword, NameMinLength, Some(AtLeast(6))) in errs <==> next != "" && JsLength(next) < 6
  {
    Check(current != "", CurrentPassword, FormFieldsRequired)
    + Check(next != "", NewPassword, FormFieldsRequired)
    + (if next != "" && JsLength(next) < 6 then [FieldError(NewPassword, NameMinLength, Some(AtLeast(6)))] else [])
  }

  /** The index of the user `User.findById` finds. */
  function UserIndex(users: seq<UserRecord>, id: Id): (r: Option<nat>)
    ensures r.Some? ==> r.value < |users| && users[r.value].id == id
    ensures r.None? ==> forall j | 0 <= j < |users| :: users[j].id != id
  {
    FirstUser(users, (u: UserRecord) => u.id == id)
  }

  /** `changePassword` for the authenticated user `userId`: the answer and
      the store after it. */
  function ChangePassword(db: Db, crypto: Crypto, userId: Id, current: string, next: string): (r: (Reply<()>, Db))
    ensures r.0.status != 200 ==> r.1 == db
    ensures ChangeFieldErrors(current, next) != [] ==> r.0 == ValidationError(ChangeFieldErrors(current, next))
    ensures r.0 == Error(IncorrectPassword, 400) <==>
      ChangeFieldErrors(current, next) == [] && UserIndex(db.users, userId).Some?
      && !crypto.compare(current, db.users[UserIndex(db.users, userId).value].password)
    ensures r.0.status == 200 <==>
      ChangeFieldErrors(current, next) == [] && UserIndex(db.users, userId).Some?
      && crypto.compare(current, db.users[UserIndex(db.users, userId).value].password)
    ensures ChangeFieldErrors(current, next) == [] && UserIndex(db.users, userId).None? ==>
      r.0 == Error(InternalServerError, 500, Some(NoUserRead))
    ensures r.0.status == 200 ==>
      r.0 == Success((), PasswordChanged, 200) && UserIndex(db.users, userId).Some?
      && var k := UserIndex(db.users, userId).value;
      r.1 == db.(users := SetPassword(db.users, k, crypto.hash(next)))
  {
    var errs := ChangeFieldErrors(current, next);
    if errs != [] then (ValidationError(errs), db)
    else match UserIndex(db.users, userId)
      case None => (Error(InternalServerError, 500, Some(NoUserRead)), db)
      case Some(k) =>
        if !crypto.compare(current, db.users[k].password) then (Error(IncorrectPassword, 400), db)
        else (Success((), PasswordChanged, 200), db.(users := SetPassword(db.users, k, crypto.hash(next))))
  }

  /** `logout`: JWT sessions are stateless, so nothing changes. */
  function Logout(db: Db): (r: (Reply<()>, Db))
    ensures r.1 == db && r.0.status == 200 && CodeOf(r.0.body) == Some(LogoutSuccessful)
  {
    (Success((), LogoutSuccessful, 200), db)
  }

  // ---------------------------------------------------------------------
  // Properties

  /** An unknown email and a wrong password are answered identically. */
  lemma SameAnswerForUnknownAndWrong(db: Db, crypto: Crypto, e1: string, e2: string, password: string)
    requires e1 != "" && e2 != "" && password != ""
    requires ActiveUser(db.users, e1).None?
    requires ActiveUser(db.users, e2).Some?
    requires !crypto.compare(password, db.users[ActiveUser(db.users, e2).value].password)
    ensures Login(db, crypto, e1, password) == Login(db, crypto, e2, password)
  {
  }

  /** A user whose account is inactive cannot log in, whatever the password. */
  lemma InactiveCannotLogin(db: Db, crypto: Crypto, email: string, password: string)
    requires email != "" && password != ""
    requires forall j | 0 <= j < |db.users| && db.users[j].email == email :: !db.users[j].isActive
    ensures Login(db, crypto, email, password) == Error(InvalidCredentials, 401)
    ensures LoginIntended(db, crypto, email, password) == Error(InvalidCredentials, 401)
  {
  }

  /** As written, an admin (no profile reference) with the right password
      gets a 500; with the guard the same request logs in with null
      profile fields. */
  lemma AdminLogin(db: Db, crypto: Crypto, email: string, password: string)
    requires email != "" && password != ""
    requires ActiveUser(db.users, email).Some?
    requires var u := db.users[ActiveUser(db.users, email).value];
      u.role == Admin && u.profileId.None? && crypto.compare(password, u.password)
    ensures Login(db, crypto, email, password).status == 500
    ensures var r := LoginIntended(db, crypto, email, password);
      r.status == 200 && r.body.data.user.profileId.None? && r.body.data.user.profile.None?
  {
  }

  /** Wherever the written login does not crash, the guarded one answers the
      same. */
  lemma LoginsAgree(db: Db, crypto: Crypto, email: string, password: string)
    requires Login(db, crypto, email, password).status != 500
    ensures LoginIntended(db, crypto, email, password) == Login(db, crypto, email, password)
  {
  }

  /** `findOne` of the updated users picks the same index: only a password
      changed. */
  lemma {:induction false} ActiveUserAfterSetPassword(users: seq<UserRecord>, k: nat, hashed: string, email: string)
    requires k < |users|
    ensures ActiveUser(SetPassword(users, k, hashed), email) == ActiveUser(users, email)
  {
    var after := SetPassword(users, k, hashed);
    var a := ActiveUser(after, email);
    var b := ActiveUser(users, email);
    forall j | 0 <= j < |users|
      ensures (after[j].email == email && after[j].isActive) <==> (users[j].email == email && users[j].isActive)
    {
      assert after[j].(password := users[j].password) == users[j];
    }
  }

  /** A wrong current password leaves the stored hash alone. */
  lemma WrongCurrentKeepsPassword(db: Db, crypto: Crypto, userId: Id, current: string, next: string)
    requires current != "" && next != "" && JsLength(next) >= 6
    requires UserIndex(db.users, userId).Some?
    requires !crypto.compare(current, db.users[UserIndex(db.users, userId).value].password)
    ensures ChangePassword(db, crypto, userId, current, next) == (Error(IncorrectPassword, 400), db)
  {
  }

  /** After a successful change, the new password logs in, provided bcrypt
      accepts a password against its own hash. */
  lemma NewPasswordLogsIn(db: Db, crypto: Crypto, userId: Id, current: string, next: string)
    requires current != "" && next != "" && JsLength(next) >= 6
    requires UserIndex(db.users, userId).Some?
    requires var k := UserIndex(db.users, userId).value;
      crypto.compare(current, db.users[k].password)
      && ActiveUser(db.users, db.users[k].email) == Some(k)
      && db.users[k].email != ""
    requires crypto.compare(next, crypto.hash(next))
    ensures var k := UserIndex(db.users, userId).value;
      var after := ChangePassword(db, crypto, userId, current, next).1;
      LoginIntended(after, crypto, db.users[k].email, next).status == 200
  {
    var k := UserIndex(db.users, userId).value;
    var after := ChangePassword(db, crypto, userId, current, next).1;
    assert after.users == SetPassword(db.users, k, crypto.hash(next));
    ActiveUserAfterSetPassword(db.users, k, crypto.hash(next), db.users[k].email);
  }
}
