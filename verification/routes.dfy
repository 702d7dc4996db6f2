/** The routers of the patient, professional and appointment endpoints
    (`patients.route.js`, `professionals.route.js`, `appointments.route.js`):
    each endpoint is a chain of middleware — token, then role or
    own-profile gate, then validation — in front of its handler.  The
    handlers themselves are modelled elsewhere; here a request either is
    answered by a middleware, crashes into Express's default 500, or
    reaches its handler. */
module Routes {
  import opened Common
  import opened Envelope
  import opened Records
  import opened Chains
  import opened AuthMiddleware
  import AppointmentRules
  import Oracles

  datatype Method = Get | Post | Put | Patch | Delete

  /** The validator chains the routes run, each followed by `validate`. */
  datatype Validator =
    | CreatePatient | UpdatePatient | PatientById
    | CreateProfessional | UpdateProfessional | ProfessionalById
    | CreateAppointment | AppointmentById | UpdateNotes

  /** One middleware.  `Unresolved` is a name imported from a module that
      does not export it. */
  datatype Stage = Authenticate | Roles(roles: seq<Role>) | OwnProfile | Check(validator: Validator) | Unresolved

  datatype Route = Route(verb: Method, pattern: string, stages: seq<Stage>)

  /** What a validator chain leaves: its errors, or a throw out of a custom
      sanitizer. */
  datatype Checked = Errors(errs: seq<FieldError>) | Thrown

  /** A request as the middleware sees it: the store, the crypto functions,
      the `Authorization` header, the `:id` parameter, and what each
      validator chain makes of the body. */
  datatype Ctx = Ctx(db: Db, crypto: Crypto, header: Option<string>, id: Id, checks: Validator -> Checked)

  /** How a request ends: answered by a middleware, a throw Express answers
      with 500, the handler reached (with `req.user` when a token was
      verified), or no server at all because the app failed to load. */
  datatype Outcome = Answered(reply: Reply<()>) | Crashed | Handled(user: Option<Identity>) | Unavailable

  // ---------------------------------------------------------------------
  // The route table

  const Staff: seq<Role> := [Admin, Professional]

  const Signature := Route(Get, "/signature", [])
  const PostPatient := Route(Post, "/patients", [Authenticate, Roles(Staff), Check(CreatePatient)])
  const ListPatients := Route(Get, "/patients", [Authenticate, Roles(Staff)])
  const DeletePatient := Route(Put, "/patients/:id/delete", [Authenticate, Roles(Staff), Check(PatientById)])
  const EditPatient := Route(Put, "/patients/:id/edit", [Authenticate, Roles(Staff), Check(UpdatePatient)])

  /** `GET /patients/:id` with the own-profile gate it names. */
  function GetPatient(gate: Stage): Route
  {
    Route(Get, "/patients/:id", [Authenticate, gate, Check(PatientById)])
  }

  const PostProfessional := Route(Post, "/professionals", [Authenticate, Roles([Admin]), Check(CreateProfessional)])
  const ListProfessionals := Route(Get, "/professionals", [Authenticate])
  const DeleteProfessional := Route(Put, "/professionals/:id/delete", [Authenticate, Roles([Admin]), Check(ProfessionalById)])
  const GetProfessional := Route(Get, "/professionals/:id", [Authenticate, Check(ProfessionalById)])
  const EditProfessional := Route(Put, "/professionals/:id/edit", [Authenticate, Roles([Admin]), Check(UpdateProfessional)])

  const PostAppointment := Route(Post, "/appointment", [Check(CreateAppointment)])
  const ListAppointments := Route(Get, "/appointment", [])
  const DeleteAppointment := Route(Delete, "/appointment/:id", [Check(AppointmentById)])
  const CancelAppointment := Route(Put, "/appointment/:id", [Check(AppointmentById)])
  const PatchNotes := Route(Patch, "/appointment/:id/notes", [Check(UpdateNotes)])

  const AppointmentRoutes := [PostAppointment, ListAppointments, DeleteAppointment, CancelAppointment, PatchNotes]

  /** The appointment router behind the import of its controller, which
      itself imports the appointment model: `link` is `[]` when that import
      resolves and `[Unresolved]` when it does not. */
  function AppointmentRouter(link: seq<Stage>): (rs: seq<Route>)
    ensures |rs| == |AppointmentRoutes|
    ensures forall k | 0 <= k < |rs| :: rs[k].stages == link + AppointmentRoutes[k].stages
    ensures link == [] ==> rs == AppointmentRoutes
  {
    if link == [] then AppointmentRoutes
    else seq(|AppointmentRoutes|, k requires 0 <= k < |AppointmentRoutes| =>
           AppointmentRoutes[k].(stages := link + AppointmentRoutes[k].stages))
  }

  /** The patient and professional routers, the patient lookup guarded by
      `gate`. */
  function StaffRoutes(gate: Stage): seq<Route>
  {
    [Signature, PostPatient, ListPatients, DeletePatient, EditPatient, GetPatient(gate),
     PostProfessional, ListProfessionals, DeleteProfessional, GetProfessional, EditProfessional]
  }

  /** The three routers in one table, the patient lookup guarded by `gate`
      and the appointment routes behind `link`. */
  function App(gate: Stage, link: seq<Stage>): (app: seq<Route>)
    ensures |app| == 16 && app[5] == GetPatient(gate) && app[11..] == AppointmentRouter(link)
  {
    StaffRoutes(gate) + AppointmentRouter(link)
  }

  /** As written: `requireOwnPatientOrAdmin` is imported from `auth.js`,
      which exports no such name, and the appointment controllers import
      `Appointment.model.js` by default although it exports only the named
      `Appointment`. */
  const AsWritten := App(Unresolved, [Unresolved])

  /** As intended: the own-profile gate `auth.js` does export, and the
      appointment model imported by its exported name. */
  const Corrected := App(OwnProfile, [])

  // ---------------------------------------------------------------------
  // Serving

  /** An ES module graph links only when every imported name exists. */
  predicate Loads(app: seq<Route>)
  {
    forall k | 0 <= k < |app| :: Resolved(app[k])
  }

  predicate Resolved(r: Route)
  {
    forall j | 0 <= j < |r.stages| :: !r.stages[j].Unresolved?
  }

  /** The first route with the method and pattern, as Express tries them. */
  function Find(app: seq<Route>, verb: Method, pattern: string): (k: Option<nat>)
    ensures k.Some? ==> k.value < |app| && app[k.value].verb == verb && app[k.value].pattern == pattern
    ensures k.Some? ==> forall j | 0 <= j < k.value :: !(app[j].verb == verb && app[j].pattern == pattern)
    ensures k.None? <==> forall j | 0 <= j < |app| :: !(app[j].verb == verb && app[j].pattern == pattern)
  {
    if app == [] then None
    else if app[0].verb == verb && app[0].pattern == pattern then Some(0)
    else match Find(app[1..], verb, pattern)
      case None => None
      case Some(k) => Some(k + 1)
  }

  /** The middleware chain run in order, each stage passing the request on
      or ending it. */
  function Run(stages: seq<Stage>, ctx: Ctx, user: Option<Identity>): (o: Outcome)
    ensures stages == [] ==> o == Handled(user)
    ensures o.Handled? ==> forall j | 0 <= j < |stages| :: !stages[j].Unresolved?
    ensures o.Answered? ==> o.reply.status in {400, 401, 403}
    decreases |stages|
  {
    if stages == [] then Handled(user)
    else
      match stages[0]
      case Authenticate =>
        (match VerifyToken(ctx.db, ctx.crypto, ctx.header)
         case Refused(reply) => Answered(reply)
         case Known(u) => Run(stages[1..], ctx, Some(u)))
      case Roles(roles) =>
        // `req.user.role` with no `req.user` throws
        if user.None? then Crashed
        else
          (match RequireRole(roles, user.value)
           case Halt(reply) => Answered(reply)
           case Next => Run(stages[1..], ctx, user))
      case OwnProfile =>
        if user.None? then Crashed
        else
          (match RequireOwnProfile(user.value, ctx.id)
           case Crash => Crashed
           case Deny(reply) => Answered(reply)
           case Allow => Run(stages[1..], ctx, user))
      case Check(v) =>
        (match ctx.checks(v)
         case Thrown => Crashed
         case Errors(errs) =>
           match Validate(errs)
           case Halt(reply) => Answered(reply)
           case Next => Run(stages[1..], ctx, user))
      case Unresolved => Unavailable
  }

  /** A request to route `k`: nothing answers when the app did not load. */
  function Serve(app: seq<Route>, k: nat, ctx: Ctx): (o: Outcome)
    requires k < |app|
    ensures !Loads(app) ==> o == Unavailable
    ensures Loads(app) ==> o == Run(app[k].stages, ctx, None) && !o.Unavailable?
  {
    if !Loads(app) then Unavailable
    else
      UnavailableNeedsUnresolved(app[k].stages, ctx, None);
      Run(app[k].stages, ctx, None)
  }

  // ---------------------------------------------------------------------
  // Properties

  /** Only an unresolved import makes a chain unavailable. */
  lemma {:induction false} UnavailableNeedsUnresolved(stages: seq<Stage>, ctx: Ctx, user: Option<Identity>)
    ensures Run(stages, ctx, user).Unavailable? ==> exists j | 0 <= j < |stages| :: stages[j].Unresolved?
    decreases |stages|
  {
    if stages != [] && !stages[0].Unresolved? {
      var o := Run(stages, ctx, user);
      if o.Unavailable? {
        var next := if stages[0].Authenticate? then Some(VerifyToken(ctx.db, ctx.crypto, ctx.header).user) else user;
        UnavailableNeedsUnresolved(stages[1..], ctx, next);
        var j :| 0 <= j < |stages[1..]| && stages[1..][j].Unresolved?;
        assert stages[j + 1].Unresolved?;
      }
    }
  }

  /** The app as written never serves a request; with the exported gate and
      the appointment model imported by name it loads. */
  lemma AsWrittenNeverLoads(k: nat, ctx: Ctx)
    requires k < |AsWritten|
    ensures !Loads(AsWritten) && Serve(AsWritten, k, ctx) == Unavailable
    ensures Loads(Corrected)
  {
    assert AsWritten[5].stages[1].Unresolved?;
    CorrectedLoads();
  }

  /** Both imports fixed, every route links. */
  lemma CorrectedLoads()
    ensures Loads(Corrected)
  {
    var staff := StaffRoutes(OwnProfile);
    assert Loads(staff) by {
      forall k | 0 <= k < |staff|
        ensures Resolved(staff[k])
      {
        assert staff[k] in staff;
      }
    }
    assert Loads(AppointmentRoutes) by {
      forall k | 0 <= k < |AppointmentRoutes|
        ensures Resolved(AppointmentRoutes[k])
      {
        assert AppointmentRoutes[k] in AppointmentRoutes;
      }
    }
    LoadsAppend(staff, AppointmentRoutes);
  }

  /** Two tables that each link form one that links. */
  lemma LoadsAppend(a: seq<Route>, b: seq<Route>)
    requires Loads(a) && Loads(b)
    ensures Loads(a + b)
  {
    forall k | 0 <= k < |a + b|
      ensures Resolved((a + b)[k])
    {
      if k >= |a| {
        assert (a + b)[k] == b[k - |a|];
      }
    }
  }

  /** Fixing the gate alone is not enough: the appointment router still
      fails to link, so no request of any router is served. */
  lemma GateAloneDoesNotLoad(k: nat, ctx: Ctx)
    requires k < |App(OwnProfile, [Unresolved])|
    ensures !Loads(App(OwnProfile, [Unresolved]))
    ensures Serve(App(OwnProfile, [Unresolved]), k, ctx) == Unavailable
  {
    var app := App(OwnProfile, [Unresolved]);
    assert app[11].stages[0].Unresolved?;
  }

  /** With the exported gate, a request runs its route's chain. */
  lemma ServeCorrected(k: nat, ctx: Ctx)
    requires k < |Corrected|
    ensures Serve(Corrected, k, ctx) == Run(Corrected[k].stages, ctx, None)
  {
    CorrectedLoads();
  }

  /** A gated route reaches its handler exactly when the token resolves to
      an active user, the role is among those allowed, and the body passes
      its validator. */
  lemma GatedRouteIff(roles: seq<Role>, v: Validator, ctx: Ctx)
    ensures Run([Authenticate, Roles(roles), Check(v)], ctx, None).Handled? <==>
      && VerifyToken(ctx.db, ctx.crypto, ctx.header).Known?
      && VerifyToken(ctx.db, ctx.crypto, ctx.header).user.role in roles
      && ctx.checks(v) == Errors([])
  {
    var stages := [Authenticate, Roles(roles), Check(v)];
    var vt := VerifyToken(ctx.db, ctx.crypto, ctx.header);
    if vt.Known? {
      var rest := stages[1..];
      assert rest == [Roles(roles), Check(v)];
      assert Run(stages, ctx, None) == Run(rest, ctx, Some(vt.user));
      if vt.user.role in roles {
        assert rest[1..] == [Check(v)];
        assert Run(rest, ctx, Some(vt.user)) == Run([Check(v)], ctx, Some(vt.user));
        assert [Check(v)][1..] == [];
      }
    }
  }

  /** The token is checked before anything else: a caller without a valid
      token gets a 401, whatever the body, on every guarded route. */
  lemma TokenComesFirst(k: nat, ctx: Ctx)
    requires k < |Corrected| && Corrected[k].stages != [] && Corrected[k].stages[0] == Authenticate
    requires VerifyToken(ctx.db, ctx.crypto, ctx.header).Refused?
    ensures Serve(Corrected, k, ctx) == Answered(VerifyToken(ctx.db, ctx.crypto, ctx.header).reply)
    ensures Serve(Corrected, k, ctx).reply.status == 401
  {
    ServeCorrected(k, ctx);
  }

  /** The role gate comes before validation: a patient gets 403 on the
      staff routes of the patient router, even with an invalid body. */
  lemma PatientsAreForbidden(k: nat, ctx: Ctx)
    requires 1 <= k <= 4
    requires VerifyToken(ctx.db, ctx.crypto, ctx.header).Known?
    requires VerifyToken(ctx.db, ctx.crypto, ctx.header).user.role == Patient
    ensures Serve(Corrected, k, ctx) == Answered(Error(InsufficientPermissions, 403))
  {
    ServeCorrected(k, ctx);
    var stages := Corrected[k].stages;
    var u := VerifyToken(ctx.db, ctx.crypto, ctx.header).user;
    assert stages[0] == Authenticate && stages[1] == Roles(Staff);
    assert Run(stages, ctx, None) == Run(stages[1..], ctx, Some(u));
    assert stages[1..][0] == Roles(Staff);
  }

  /** Creating, deleting and editing a professional are for admins only. */
  lemma ProfessionalWritesNeedAdmin(k: nat, ctx: Ctx)
    requires k == 6 || k == 8 || k == 10
    requires VerifyToken(ctx.db, ctx.crypto, ctx.header).Known?
    requires VerifyToken(ctx.db, ctx.crypto, ctx.header).user.role != Admin
    ensures Serve(Corrected, k, ctx) == Answered(Error(InsufficientPermissions, 403))
  {
    ServeCorrected(k, ctx);
    assert Corrected[k].stages[1..][0] == Roles([Admin]);
  }

  /** Any valid token, whatever its role, lists the professionals, and
      looks one up when the id is well formed. */
  lemma AnyRoleReadsProfessionals(ctx: Ctx)
    requires VerifyToken(ctx.db, ctx.crypto, ctx.header).Known?
    ensures Serve(Corrected, 7, ctx) == Handled(Some(VerifyToken(ctx.db, ctx.crypto, ctx.header).user))
    ensures ctx.checks(ProfessionalById) == Errors([]) ==> Serve(Corrected, 9, ctx).Handled?
    ensures ctx.checks(ProfessionalById).Errors? && ctx.checks(ProfessionalById).errs != [] ==>
      Serve(Corrected, 9, ctx).Answered? && Serve(Corrected, 9, ctx).reply.status == 400
  {
    ServeCorrected(7, ctx);
    ServeCorrected(9, ctx);
    assert Corrected[7].stages[1..] == [];
    assert Corrected[9].stages[1..] == [Check(ProfessionalById)];
    assert Corrected[9].stages[1..][1..] == [];
  }

  /** The appointment routes read no token: the header changes nothing. */
  lemma AppointmentsIgnoreToken(k: nat, ctx: Ctx, header: Option<string>)
    requires 11 <= k < 16
    ensures Serve(Corrected, k, ctx) == Serve(Corrected, k, ctx.(header := header))
    ensures !Serve(Corrected, k, ctx).Answered? || Serve(Corrected, k, ctx).reply.status == 400
  {
    ServeCorrected(k, ctx);
    ServeCorrected(k, ctx.(header := header));
    AppointmentStages(k);
    CheckOnlyIgnoresToken(Corrected[k].stages, ctx, header);
  }

  /** An appointment route runs at most one validator and nothing else. */
  lemma AppointmentStages(k: nat)
    requires 11 <= k < 16
    ensures |Corrected[k].stages| <= 1
    ensures forall j | 0 <= j < |Corrected[k].stages| :: Corrected[k].stages[j].Check?
  {
    assert Corrected[k] == Corrected[11..][k - 11] == AppointmentRoutes[k - 11];
  }

  /** A chain of at most one validator ignores the header, and only ever
      answers 400. */
  lemma CheckOnlyIgnoresToken(stages: seq<Stage>, ctx: Ctx, header: Option<string>)
    requires |stages| <= 1 && forall j | 0 <= j < |stages| :: stages[j].Check?
    ensures Run(stages, ctx, None) == Run(stages, ctx.(header := header), None)
    ensures !Run(stages, ctx, None).Answered? || Run(stages, ctx, None).reply.status == 400
  {
    if stages != [] {
      assert stages[0].Check? && stages[1..] == [];
    }
  }

  /** The notes route demands `notes`: a request reaching the handler
      carries non-empty notes, so the handler's own rule for a body with
      neither note is never met through this route. */
  lemma NotesReachHandlerFilled(lib: Oracles.Lib, ctx: Ctx, id: string, notes: string)
    requires match AppointmentRules.UpdateNotes(lib, id, notes)
      case Aborted(_) => ctx.checks(UpdateNotes) == Thrown
      case Checked(errs, _) => ctx.checks(UpdateNotes) == Errors(errs)
    ensures Serve(Corrected, 15, ctx).Handled? ==> notes != ""
    ensures notes == "" ==> Serve(Corrected, 15, ctx).Answered? && Serve(Corrected, 15, ctx).reply.status == 400
  {
    ServeCorrected(15, ctx);
    assert Corrected[15].stages == [Check(UpdateNotes)];
    assert [Check(UpdateNotes)][1..] == [];
  }

  /** With the exported gate, an admin whose user has no profile reference
      crashes on a patient lookup: the gate reads the reference first. */
  lemma AdminLookupCrashes(ctx: Ctx)
    requires VerifyToken(ctx.db, ctx.crypto, ctx.header).Known?
    requires VerifyToken(ctx.db, ctx.crypto, ctx.header).user.role == Admin
    requires VerifyToken(ctx.db, ctx.crypto, ctx.header).user.profileId.None?
    ensures Serve(Corrected, 5, ctx) == Crashed
  {
    ServeCorrected(5, ctx);
    assert Corrected[5].stages[1..][0] == OwnProfile;
  }
}
