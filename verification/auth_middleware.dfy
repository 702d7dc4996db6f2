/** `api/middlewares/auth.js`: resolving the bearer token to the calling
    user, and the role and own-profile gates.  JSON Web Tokens and bcrypt are
    taken as given functions. */
module AuthMiddleware {
  import opened Common
  import opened Envelope
  import opened Records
  import opened Chains

  /** The token claims `{id, role, profileId}`. */
  datatype Claims = Claims(id: Id, role: Role, profileId: Option<Id>)

  /** bcrypt `hash`/`compare` and jsonwebtoken `sign`/`verify` (the secret
      and expiry are folded into the functions; `verify` answers `None`
      where it would throw). */
  datatype Crypto = Crypto(
    hash: string -> string,
    compare: (string, string) -> bool,
    sign: Claims -> string,
    verify: string -> Option<Claims>)

  /** `req.user`: `profile` is the populated profile document, named by its id. */
  datatype Identity = Identity(id: Id, role: Role, profileId: Option<Id>, profile: Option<Id>)

  /** What verifying a request leaves: an identity to pass on, or an answer. */
  datatype Resolved = Known(user: Identity) | Refused(reply: Reply<()>)

  /** `authorization?.split(' ')[1]`, kept only when truthy. */
  function Token(header: Option<string>): (t: Option<string>)
    ensures t.Some? ==> t.value != "" && ' ' !in t.value
    ensures header.None? ==> t.None?
  {
    if header.None? then None
    else
      var parts := Split(header.value, ' ');
      if |parts| >= 2 && parts[1] != "" then Some(parts[1]) else None
  }

  /** The document `populate` finds for a user's profile reference, if any. */
  function Populated(db: Db, u: UserRecord): (p: Option<Id>)
    ensures p.Some? ==> p == u.profileId
  {
    match (u.profileId, u.profileModel)
    case (Some(pid), Some(Patient)) => if pid in db.patients then Some(pid) else None
    case (Some(pid), Some(Professional)) => if pid in db.professionals then Some(pid) else None
    case _ => None
  }

  /** `verifyToken` */
  function VerifyToken(db: Db, crypto: Crypto, header: Option<string>): (r: Resolved)
    ensures Token(header).None? ==> r == Refused(Error(TokenNotProvided, 401))
    ensures Token(header).Some? && crypto.verify(Token(header).value).None? ==>
      r == Refused(Error(InvalidToken, 401))
    ensures r.Known? <==>
      && Token(header).Some?
      && crypto.verify(Token(header).value).Some?
      && var u := UserById(db.users, crypto.verify(Token(header).value).value.id);
         u.Some? && u.value.isActive
    ensures Token(header).Some? && crypto.verify(Token(header).value).Some? ==>
      var u := UserById(db.users, crypto.verify(Token(header).value).value.id);
      (u.None? || !u.value.isActive) ==> r == Refused(Error(InvalidUser, 401))
    ensures r.Refused? ==> r.reply.status == 401
    ensures r.Known? ==> exists j | 0 <= j < |db.users| ::
      db.users[j].id == r.user.id && db.users[j].isActive
      && db.users[j].role == r.user.role && db.users[j].profileId == r.user.profileId
    ensures r.Known? ==> (r.user.profile.Some? ==> r.user.role != Admin && r.user.profile == r.user.profileId)
  {
    var token := Token(header);
    if token.None? then Refused(Error(TokenNotProvided, 401))
    else match crypto.verify(token.value)
      case None => Refused(Error(InvalidToken, 401))
      case Some(claims) =>
        match UserById(db.users, claims.id)
        case None => Refused(Error(InvalidUser, 401))
        case Some(u) =>
          if !u.isActive then Refused(Error(InvalidUser, 401))
          else
            var profile := if u.role != Admin && u.profileId.Some? then Populated(db, u) else None;
            Known(Identity(u.id, u.role, u.profileId, profile))
  }

  /** `requireRole(roles)` */
  function RequireRole(roles: seq<Role>, user: Identity): (g: Gate)
    ensures g.Next? <==> user.role in roles
    ensures g.Halt? ==> g.reply == Error(InsufficientPermissions, 403)
  {
    if user.role !in roles then Halt(Error(InsufficientPermissions, 403)) else Next
  }

  /** The own-profile gate's verdict: a null `profileId` makes the
      `toString()` call throw, which Express answers with a 500. */
  datatype Verdict = Allow | Deny(reply: Reply<()>) | Crash

  /** `requireOwnProfile` as written: `profileId.toString()` is evaluated
      before the admin test. */
  function RequireOwnProfile(user: Identity, id: Id): (v: Verdict)
    ensures v.Crash? <==> user.profileId.None?
    ensures v.Allow? <==> user.profileId == Some(id) || (user.profileId.Some? && user.role == Admin)
    ensures v.Deny? ==> v.reply == Error(UnauthorizedProfileAccess, 403)
  {
    match user.profileId
    case None => Crash
    case Some(pid) =>
      if pid != id && user.role != Admin then Deny(Error(UnauthorizedProfileAccess, 403)) else Allow
  }

  /** The gate as its admin clause intends: admins pass whatever their
      profile reference. */
  function RequireOwnProfileIntended(user: Identity, id: Id): (v: Verdict)
    ensures v.Allow? <==> user.role == Admin || user.profileId == Some(id)
    ensures !v.Crash?
    ensures v.Deny? ==> v.reply == Error(UnauthorizedProfileAccess, 403)
  {
    if user.role == Admin || user.profileId == Some(id) then Allow
    else Deny(Error(UnauthorizedProfileAccess, 403))
  }

  // ---------------------------------------------------------------------
  // Properties

  /** The gate as written crashes for an admin without a profile, where the
      intended gate lets the admin through. */
  lemma AdminWithoutProfileCrashes(user: Identity, id: Id)
    requires user.role == Admin && user.profileId.None?
    ensures RequireOwnProfile(user, id) == Crash
    ensures RequireOwnProfileIntended(user, id) == Allow
  {
  }

  /** Wherever the written gate does not crash, both gates agree. */
  lemma OwnProfileGatesAgree(user: Identity, id: Id)
    requires user.profileId.Some?
    ensures RequireOwnProfile(user, id) == RequireOwnProfileIntended(user, id)
  {
  }

  /** `Authorization: <scheme> <token>` yields the token. */
  lemma BearerToken(scheme: string, token: string)
    requires ' ' !in scheme && ' ' !in token && token != ""
    ensures Token(Some(scheme + " " + token)) == Some(token)
  {
    SplitAround(scheme, token, ' ');
    assert scheme + " " + token == scheme + [' '] + token;
  }

  /** A token `verify` refuses is INVALID_TOKEN, whatever the users; a bad
      signature and an expired token are not told apart. */
  lemma UnverifiableTokenRefused(db: Db, crypto: Crypto, scheme: string, token: string)
    requires ' ' !in scheme && ' ' !in token && token != ""
    requires crypto.verify(token).None?
    ensures VerifyToken(db, crypto, Some(scheme + " " + token)) == Refused(Error(InvalidToken, 401))
  {
    BearerToken(scheme, token);
  }

  /** A token signed for an active user resolves to that user's identity,
      with no profile for an admin. */
  lemma SignedTokenResolves(db: Db, crypto: Crypto, k: nat, scheme: string)
    requires k < |db.users| && db.users[k].isActive
    requires forall j | 0 <= j < k :: db.users[j].id != db.users[k].id
    requires var u := db.users[k]; var t := crypto.sign(Claims(u.id, u.role, u.profileId));
      ' ' !in scheme && ' ' !in t && t != "" && crypto.verify(t) == Some(Claims(u.id, u.role, u.profileId))
    ensures var u := db.users[k];
      var r := VerifyToken(db, crypto, Some(scheme + " " + crypto.sign(Claims(u.id, u.role, u.profileId))));
      r.Known? && r.user.id == u.id && r.user.role == u.role && r.user.profileId == u.profileId
      && (u.role == Admin ==> r.user.profile.None?)
  {
    var u := db.users[k];
    BearerToken(scheme, crypto.sign(Claims(u.id, u.role, u.profileId)));
  }
}
