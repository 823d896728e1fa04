/** End-to-end runs of the approval workflow. The only fact assumed of the
    hashing primitive is that the digest of the password used checks against
    that password. */
module Scenarios {
  import opened Wrappers
  import opened Models
  import opened Web
  import Auth
  import Admin
  import Company

  function RegisterFields(name: string, email: string, password: string, role: string): (f: Form)
    ensures Auth.HasRegisterFields(f) && f["role"] == role && f["email"] == email
  {
    map["name" := name, "email" := email, "password" := password, "role" := role]
  }

  function LoginFields(email: string, password: string): (f: Form)
    ensures Auth.HasLoginFields(f) && f["email"] == email && f["password"] == password
  {
    map["email" := email, "password" := password]
  }

  /** A freshly registered company cannot log in until an admin approves it. */
  lemma UnapprovedCompanyCannotLogIn(st: Store, h: Hasher, email: string, pw: string)
    requires Valid(st) && !EmailTaken(st.users, email)
    requires h.check(h.hash(pw), pw)
    ensures var st1 := Auth.Register(st, Anonymous, h, Post, RegisterFields("Acme", email, pw, CompanyRole)).store;
            var r := Auth.Login(st1, Anonymous, h, Post, LoginFields(email, pw));
            r.session == Anonymous && r.outcome == Outcome(Some(Auth.NotApproved), Redirect(LoginPage))
  {
    var st1 := Auth.Register(st, Anonymous, h, Post, RegisterFields("Acme", email, pw, CompanyRole)).store;
    Auth.RegisterPreservesValid(st, Anonymous, h, Post, RegisterFields("Acme", email, pw, CompanyRole));
    FindByEmailUnique(st1.users, |st.users|);
  }

  /** Register a company and have the admin approve it: the company then logs
      in with an approved company session. */
  lemma ApprovedCompanyLogsIn(st: Store, admin: Session, h: Hasher, email: string, pw: string,
                              st1: Store, st2: Store)
    requires Valid(st) && Admin.IsAdmin(admin)
    requires !EmailTaken(st.users, email)
    requires h.check(h.hash(pw), pw)
    requires st1 == Auth.Register(st, Anonymous, h, Post, RegisterFields("Acme", email, pw, CompanyRole)).store
    requires st2 == Admin.ApproveCompany(st1, admin, |st.users| + 1).store
    ensures Valid(st2)
    ensures var e := Auth.Login(st2, Anonymous, h, Post, LoginFields(email, pw));
            && e.store == st2
            && e.session == LoggedIn(|st.users| + 1, CompanyRole, true)
            && e.outcome == Outcome(None, Redirect(CompanyDashboardPage))
  {
    var id := |st.users| + 1;
    var form := RegisterFields("Acme", email, pw, CompanyRole);
    Auth.RegisterPreservesValid(st, Anonymous, h, Post, form);
    assert Auth.RegisterAccepts(st, Post, form);
    var u := st1.users[id - 1];
    assert u.email == email && u.role == CompanyRole && u.password == h.hash(pw);
    Admin.ApproveCompanyPreservesValid(st1, admin, id);
    assert st2.users[id - 1] == u.(approved := true);
    FindByEmailUnique(st2.users, id - 1);
    assert Auth.Authenticate(st2, h, email, pw) == Some(id);
    assert Auth.LoginSucceeds(st2, h, Post, LoginFields(email, pw));
  }

  /** An approved company creates a drive (it starts Pending, owned by the
      company); the admin approves it; the admin's drive list then shows it
      Approved. */
  lemma DriveApprovalShowsInList(st: Store, company: Session, admin: Session, title: string, desc: string,
                                 st1: Store, st2: Store)
    requires SessionIs(company, CompanyRole) && Admin.IsAdmin(admin)
    requires st1 == Company.CreateDrive(st, company, Post, map["title" := title, "description" := desc]).store
    requires st2 == Admin.ApproveDrive(st1, admin, |st.drives| + 1).store
    ensures |st1.drives| == |st.drives| + 1
            && st1.drives[|st.drives|].status == Pending
            && st1.drives[|st.drives|].companyId == Some(company.userId)
    ensures Admin.Drives(st2, admin).outcome.response == Render(DriveList(st2.drives))
    ensures |st2.drives| == |st.drives| + 1
            && st2.drives[|st.drives|].status == Approved && st2.drives[|st.drives|].title == title
  {
  }

  /** The whole onboarding: register company, approve it, log in, create a
      drive, approve the drive, list the drives. */
  lemma CompanyOnboarding(st: Store, admin: Session, h: Hasher, email: string, pw: string,
                          e1: Effect, e2: Effect, e3: Effect, e4: Effect, e5: Effect)
    requires Valid(st) && Admin.IsAdmin(admin)
    requires !EmailTaken(st.users, email)
    requires h.check(h.hash(pw), pw)
    requires e1 == Auth.Register(st, Anonymous, h, Post, RegisterFields("Acme", email, pw, CompanyRole))
    requires e2 == Admin.ApproveCompany(e1.store, admin, |st.users| + 1)
    requires e3 == Auth.Login(e2.store, Anonymous, h, Post, LoginFields(email, pw))
    requires e4 == Company.CreateDrive(e3.store, e3.session, Post,
                                       map["title" := "SDE Intern", "description" := "Internship"])
    requires e5 == Admin.ApproveDrive(e4.store, admin, |st.drives| + 1)
    ensures e3.session == LoggedIn(|st.users| + 1, CompanyRole, true)
    ensures |e4.store.drives| == |st.drives| + 1
            && e4.store.drives[|st.drives|].status == Pending
            && e4.store.drives[|st.drives|].companyId == Some(|st.users| + 1)
    ensures Admin.Drives(e5.store, admin).outcome.response == Render(DriveList(e5.store.drives))
    ensures |e5.store.drives| == |st.drives| + 1
            && e5.store.drives[|st.drives|].status == Approved
            && e5.store.drives[|st.drives|].title == "SDE Intern"
  {
    ApprovedCompanyLogsIn(st, admin, h, email, pw, e1.store, e2.store);
    assert e2.store.drives == st.drives;
    DriveApprovalShowsInList(e3.store, e3.session, admin, "SDE Intern", "Internship", e4.store, e5.store);
  }

  /** A registered student logs in at once, with no admin action. */
  lemma StudentLogsInImmediately(st: Store, h: Hasher, email: string, pw: string)
    requires Valid(st) && !EmailTaken(st.users, email)
    requires h.check(h.hash(pw), pw)
    ensures var st1 := Auth.Register(st, Anonymous, h, Post, RegisterFields("Ann", email, pw, StudentRole)).store;
            var r := Auth.Login(st1, Anonymous, h, Post, LoginFields(email, pw));
            r.session == LoggedIn(|st.users| + 1, StudentRole, true)
            && r.outcome == Outcome(None, Redirect(StudentDashboardPage))
  {
    var form := RegisterFields("Ann", email, pw, StudentRole);
    var st1 := Auth.Register(st, Anonymous, h, Post, form).store;
    Auth.RegisterPreservesValid(st, Anonymous, h, Post, form);
    assert Auth.RegisterAccepts(st, Post, form);
    var u := st1.users[|st.users|];
    assert u.email == email && u.role == StudentRole && u.approved && u.password == h.hash(pw);
    FindByEmailUnique(st1.users, |st.users|);
    assert Auth.Authenticate(st1, h, email, pw) == Some(|st.users| + 1);
    assert Auth.LoginSucceeds(st1, h, Post, LoginFields(email, pw));
  }

  /** The active flag is recorded but never consulted: a deactivated user
      logs in exactly as before. */
  lemma DeactivationDoesNotBlockLogin(st: Store, admin: Session, s: Session, h: Hasher, id: nat, form: Form)
    requires Admin.IsAdmin(admin) && IsUserId(st, id)
    ensures var st1 := Admin.DeactivateUser(st, admin, id).store;
            Auth.Login(st1, s, h, Post, form) == Auth.Login(st, s, h, Post, form).(store := st1)
  {
    var st1 := Admin.DeactivateUser(st, admin, id).store;
    Auth.LoginReadsCredentialsOnly(st, st1, s, h, Post, form);
  }
}
