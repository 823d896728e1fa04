/** The application as a sequential state machine: one request at a time
    against the store, from one client's session. */
module Portal {
  import opened Wrappers
  import opened Models
  import opened Web
  import Auth
  import Admin
  import Company
  import Student
  import Bootstrap

  const HomeText: string := "Placement Portal Running"

  /** One request per route of the application. */
  datatype Request =
    | Home
    | Register(verb: Verb, form: Form)
    | Login(verb: Verb, form: Form)
    | Logout
    | AdminDashboard
    | AdminStudents
    | AdminCompanies
    | AdminDrives
    | ApproveCompany(userId: nat)
    | ApproveDrive(driveId: nat)
    | RejectDrive(driveId: nat)
    | Activate(userId: nat)
    | Deactivate(userId: nat)
    | CompanyDashboard
    | CreateDrive(verb: Verb, form: Form)
    | StudentDashboard

  predicate IsAdminMutation(req: Request) {
    req.ApproveCompany? || req.ApproveDrive? || req.RejectDrive? || req.Activate? || req.Deactivate?
  }

  predicate IsAdminRoute(req: Request) {
    IsAdminMutation(req) || req.AdminDashboard? || req.AdminStudents? || req.AdminCompanies? || req.AdminDrives?
  }

  /** The row an admin mutation targets exists. */
  predicate TargetExists(st: Store, req: Request)
    requires IsAdminMutation(req)
  {
    match req
    case ApproveDrive(id) => IsDriveId(st, id)
    case RejectDrive(id) => IsDriveId(st, id)
    case ApproveCompany(id) => IsUserId(st, id)
    case Activate(id) => IsUserId(st, id)
    case Deactivate(id) => IsUserId(st, id)
  }

  /** The list page an admin mutation returns to. */
  function ListPage(req: Request): Page
    requires IsAdminMutation(req)
  {
    match req
    case ApproveCompany(_) => AdminCompaniesPage
    case ApproveDrive(_) => AdminDrivesPage
    case RejectDrive(_) => AdminDrivesPage
    case Activate(_) => AdminStudentsPage
    case Deactivate(_) => AdminStudentsPage
  }

  /** Dispatch one request to its route. */
  function Step(st: Store, s: Session, h: Hasher, req: Request): (r: Effect)
    ensures Extends(st, r.store)
  {
    match req
    case Home => Effect(st, s, Outcome(None, Text(HomeText)))
    case Register(verb, form) => Auth.Register(st, s, h, verb, form)
    case Login(verb, form) => Auth.Login(st, s, h, verb, form)
    case Logout => Auth.Logout(st, s)
    case AdminDashboard => Admin.Dashboard(st, s)
    case AdminStudents => Admin.Students(st, s)
    case AdminCompanies => Admin.Companies(st, s)
    case AdminDrives => Admin.Drives(st, s)
    case ApproveCompany(id) => Admin.ApproveCompany(st, s, id)
    case ApproveDrive(id) => Admin.ApproveDrive(st, s, id)
    case RejectDrive(id) => Admin.RejectDrive(st, s, id)
    case Activate(id) => Admin.ActivateUser(st, s, id)
    case Deactivate(id) => Admin.DeactivateUser(st, s, id)
    case CompanyDashboard => Company.Dashboard(st, s)
    case CreateDrive(verb, form) => Company.CreateDrive(st, s, verb, form)
    case StudentDashboard => Student.Dashboard(st, s)
  }

  /** Every admin route, given a session without the admin role, redirects
      to login and changes nothing. */
  lemma AdminRoutesGuarded(st: Store, s: Session, h: Hasher, req: Request)
    requires IsAdminRoute(req) && !Admin.IsAdmin(s)
    ensures Step(st, s, h, req) == Deny(st, s)
  {
  }

  /** An admin mutation on an id with no row changes nothing and returns to
      its list page rather than to login. */
  lemma MissingTargetIsNoOp(st: Store, s: Session, h: Hasher, req: Request)
    requires IsAdminMutation(req) && Admin.IsAdmin(s) && !TargetExists(st, req)
    ensures Step(st, s, h, req) == Effect(st, s, Outcome(None, Redirect(ListPage(req))))
  {
  }

  /** Only login and logout touch the session; only registration, drive
      creation and the admin mutations touch the store. */
  lemma StepFrames(st: Store, s: Session, h: Hasher, req: Request)
    ensures Step(st, s, h, req).session != s ==> req.Login? || req.Logout?
    ensures Step(st, s, h, req).store != st ==> req.Register? || req.CreateDrive? || IsAdminMutation(req)
    ensures Step(st, s, h, req).store.applications == st.applications
  {
  }

  /** The invariant of the running application: a valid store with exactly
      one admin, and a session that agrees with it. */
  predicate Invariant(st: Store, s: Session) {
    Valid(st) && CountRole(st.users, AdminRole) == 1 && Consistent(st, s)
  }

  /** The routes that only read the store. */
  predicate IsReadOnly(req: Request) {
    !(req.Register? || req.CreateDrive? || IsAdminMutation(req))
  }

  /** The read-only routes leave the store as it was. */
  lemma ReadOnlyStepKeepsStore(st: Store, s: Session, h: Hasher, req: Request)
    requires IsReadOnly(req)
    ensures Step(st, s, h, req).store == st
  {
  }

  /** Every request keeps the store valid and the number of admins fixed. */
  lemma StepKeepsStoreValid(st: Store, s: Session, h: Hasher, req: Request)
    requires Valid(st) && Consistent(st, s)
    ensures Valid(Step(st, s, h, req).store)
    ensures CountRole(Step(st, s, h, req).store.users, AdminRole) == CountRole(st.users, AdminRole)
  {
    match req
    case Register(verb, form) =>
      assert Step(st, s, h, req) == Auth.Register(st, s, h, verb, form);
      Auth.RegisterPreservesValid(st, s, h, verb, form);
    case CreateDrive(verb, form) =>
      assert Step(st, s, h, req) == Company.CreateDrive(st, s, verb, form);
      Company.CreateDrivePreservesValid(st, s, verb, form);
    case ApproveCompany(id) =>
      assert Step(st, s, h, req) == Admin.ApproveCompany(st, s, id);
      Admin.ApproveCompanyPreservesValid(st, s, id);
    case Activate(id) =>
      assert Step(st, s, h, req) == Admin.ActivateUser(st, s, id);
      Admin.ActivateUserPreservesValid(st, s, id);
    case Deactivate(id) =>
      assert Step(st, s, h, req) == Admin.DeactivateUser(st, s, id);
      Admin.DeactivateUserPreservesValid(st, s, id);
    case ApproveDrive(id) =>
      assert Step(st, s, h, req) == Admin.ApproveDrive(st, s, id);
      Admin.ApproveDrivePreservesValid(st, s, id);
    case RejectDrive(id) =>
      assert Step(st, s, h, req) == Admin.RejectDrive(st, s, id);
      Admin.RejectDrivePreservesValid(st, s, id);
    case _ =>
      ReadOnlyStepKeepsStore(st, s, h, req);
  }

  /** Every request keeps the invariant, and keeps any other client's
      consistent session consistent. */
  lemma StepPreservesInvariant(st: Store, s: Session, h: Hasher, req: Request, other: Session)
    requires Invariant(st, s)
    requires Consistent(st, other)
    ensures Invariant(Step(st, s, h, req).store, Step(st, s, h, req).session)
    ensures Consistent(Step(st, s, h, req).store, other)
  {
    var r := Step(st, s, h, req);
    StepKeepsStoreValid(st, s, h, req);
    ConsistentUnderExtends(st, r.store, other);
    if req.Login? {
      Auth.LoginEstablishesConsistentSession(st, s, h, req.verb, req.form);
    } else {
      StepFrames(st, s, h, req);
      ConsistentUnderExtends(st, r.store, s);
    }
  }

  /** The state after a sequence of requests from one client. */
  datatype State = State(store: Store, session: Session)

  function Run(st: Store, s: Session, h: Hasher, reqs: seq<Request>): (fin: State)
    ensures Extends(st, fin.store)
    decreases |reqs|
  {
    if |reqs| == 0 then State(st, s)
    else
      var r := Step(st, s, h, reqs[0]);
      ExtendsTransitive(st, r.store, Run(r.store, r.session, h, reqs[1..]).store);
      Run(r.store, r.session, h, reqs[1..])
  }

  lemma ExtendsTransitive(a: Store, b: Store, c: Store)
    requires Extends(a, b) && Extends(b, c)
    ensures Extends(a, c)
  {
    forall k | 0 <= k < |a.users|
      ensures UserEvolves(a.users[k], c.users[k])
    {
      assert UserEvolves(b.users[k], c.users[k]);
    }
  }

  lemma {:induction false} RunPreservesInvariant(st: Store, s: Session, h: Hasher, reqs: seq<Request>)
    requires Invariant(st, s)
    ensures Invariant(Run(st, s, h, reqs).store, Run(st, s, h, reqs).session)
    decreases |reqs|
  {
    if |reqs| > 0 {
      var r := Step(st, s, h, reqs[0]);
      StepPreservesInvariant(st, s, h, reqs[0], s);
      RunPreservesInvariant(r.store, r.session, h, reqs[1..]);
    }
  }

  /** Startup on a fresh database yields a state satisfying the invariant. */
  lemma FreshStartupSatisfiesInvariant(h: Hasher)
    ensures Bootstrap.Startup(EmptyStore, h).Some?
    ensures Invariant(Bootstrap.Startup(EmptyStore, h).value, Anonymous)
  {
    Bootstrap.StartupOnEmptySucceeds(h);
    Bootstrap.StartupEstablishesOneAdmin(EmptyStore, h);
  }

  /** From a fresh database, after startup and any sequence of requests, the
      store is valid with exactly one admin, the session agrees with the
      store, and so a company session never sees the waiting page. */
  lemma ReachableStatesKeepInvariant(h: Hasher, st0: Store, reqs: seq<Request>)
    requires Bootstrap.Startup(EmptyStore, h) == Some(st0)
    ensures Valid(Run(st0, Anonymous, h, reqs).store)
    ensures CountRole(Run(st0, Anonymous, h, reqs).store.users, AdminRole) == 1
    ensures Consistent(Run(st0, Anonymous, h, reqs).store, Run(st0, Anonymous, h, reqs).session)
    ensures var fin := Run(st0, Anonymous, h, reqs);
            Company.Dashboard(fin.store, fin.session).outcome.response != Text(Company.WaitingMessage)
  {
    FreshStartupSatisfiesInvariant(h);
    RunPreservesInvariant(st0, Anonymous, h, reqs);
    var fin := Run(st0, Anonymous, h, reqs);
    Company.ConsistentCompanyNeverWaits(fin.store, fin.session);
  }
}
