/** Registration, login and logout. */
module Auth {
  import opened Wrappers
  import opened Models
  import opened Web

  const AdminForbidden: string := "Admin registration not allowed"
  /** Flashed on a duplicate email, spelled as the application spells it. */
  const EmailAlreadyTaken: string := "Email alreay registered"
  const Registered: string := "Registration successful. Please login."
  const InvalidCredentials: string := "Invalid credentials"
  const NotApproved: string := "Company not approved by admin yet"

  predicate HasRegisterFields(form: Form) {
    "name" in form && "email" in form && "password" in form && "role" in form
  }

  /** A registration that creates a user: a complete POST, a role other than
      admin, and an email nobody holds. */
  predicate RegisterAccepts(st: Store, verb: Verb, form: Form) {
    && verb == Post && HasRegisterFields(form)
    && form["role"] != AdminRole
    && !EmailTaken(st.users, form["email"])
  }

  /** The user row a registration creates from the form: the digest of the
      password, approved exactly when the role is student, active. */
  predicate RegisteredFrom(u: User, form: Form, h: Hasher)
    requires HasRegisterFields(form)
  {
    && u.name == form["name"] && u.email == form["email"]
    && u.password == h.hash(form["password"]) && u.role == form["role"]
    && (u.approved <==> form["role"] == StudentRole)
    && u.active
  }

  /** The register route. */
  function Register(st: Store, s: Session, h: Hasher, verb: Verb, form: Form): (r: Effect)
    ensures r.session == s
    ensures Extends(st, r.store)
    ensures verb == Get ==> r.store == st && r.outcome == Outcome(None, Render(RegisterForm))
    ensures verb == Post && !HasRegisterFields(form) ==> r.store == st && r.outcome.response == BadRequest
    ensures verb == Post && HasRegisterFields(form) && form["role"] == AdminRole ==>
              r.store == st && r.outcome == Outcome(Some(AdminForbidden), Redirect(RegisterPage))
    ensures verb == Post && HasRegisterFields(form) && form["role"] != AdminRole
            && EmailTaken(st.users, form["email"]) ==>
              r.store == st && r.outcome == Outcome(Some(EmailAlreadyTaken), Redirect(RegisterPage))
    ensures r.store != st <==> RegisterAccepts(st, verb, form)
    ensures RegisterAccepts(st, verb, form) ==>
              && |r.store.users| == |st.users| + 1
              && r.store.users[..|st.users|] == st.users
              && RegisteredFrom(r.store.users[|st.users|], form, h)
              && r.store.drives == st.drives && r.store.applications == st.applications
              && r.outcome == Outcome(Some(Registered), Redirect(LoginPage))
  {
    if verb == Get then Effect(st, s, Outcome(None, Render(RegisterForm)))
    else if !HasRegisterFields(form) then Effect(st, s, Outcome(None, BadRequest))
    else
      var digest := h.hash(form["password"]);
      var role := form["role"];
      if role == AdminRole then
        Effect(st, s, Outcome(Some(AdminForbidden), Redirect(RegisterPage)))
      else if FindByEmail(st.users, form["email"]).Some? then
        Effect(st, s, Outcome(Some(EmailAlreadyTaken), Redirect(RegisterPage)))
      else
        var u := NewUser(form["name"], form["email"], digest, role, Some(role == StudentRole));
        var users := st.users + [u];
        assert users[..|st.users|] == st.users;
        Effect(st.(users := users), s, Outcome(Some(Registered), Redirect(LoginPage)))
  }

  predicate HasLoginFields(form: Form) {
    "email" in form && "password" in form
  }

  /** The id of the user the credentials identify: the first user with that
      email, provided the stored digest checks against the password. */
  function Authenticate(st: Store, h: Hasher, email: string, password: string): (r: Option<nat>)
    ensures r.Some? ==> IsUserId(st, r.value) && st.users[r.value - 1].email == email
    ensures r.Some? ==> h.check(st.users[r.value - 1].password, password)
    ensures r.None? <==> (!EmailTaken(st.users, email)
                          || !h.check(st.users[FindByEmail(st.users, email).value - 1].password, password))
  {
    match FindByEmail(st.users, email)
    case None => None
    case Some(id) =>
      if h.check(st.users[id - 1].password, password) then Some(id) else None
  }

  /** The credentials check, but they identify a company nobody approved yet. */
  predicate UnapprovedCompany(st: Store, h: Hasher, form: Form)
    requires HasLoginFields(form)
  {
    var id := Authenticate(st, h, form["email"], form["password"]);
    id.Some? && st.users[id.value - 1].role == CompanyRole && !st.users[id.value - 1].approved
  }

  /** A login that establishes a session: a complete POST whose credentials
      check, for a user that is not an unapproved company. */
  predicate LoginSucceeds(st: Store, h: Hasher, verb: Verb, form: Form) {
    && verb == Post && HasLoginFields(form)
    && Authenticate(st, h, form["email"], form["password"]).Some?
    && !UnapprovedCompany(st, h, form)
  }

  /** The login route. */
  function Login(st: Store, s: Session, h: Hasher, verb: Verb, form: Form): (r: Effect)
    ensures r.store == st
    ensures verb == Get ==> r.session == s && r.outcome == Outcome(None, Render(LoginForm))
    ensures verb == Post && !HasLoginFields(form) ==> r.session == s && r.outcome.response == BadRequest
    ensures verb == Post && HasLoginFields(form)
            && Authenticate(st, h, form["email"], form["password"]).None? ==>
              r.session == s && r.outcome == Outcome(Some(InvalidCredentials), Render(LoginForm))
    ensures verb == Post && HasLoginFields(form) && UnapprovedCompany(st, h, form) ==>
              r.session == s && r.outcome == Outcome(Some(NotApproved), Redirect(LoginPage))
    ensures !LoginSucceeds(st, h, verb, form) ==> r.session == s
    ensures LoginSucceeds(st, h, verb, form) ==>
              var id := Authenticate(st, h, form["email"], form["password"]).value;
              && r.session == LoggedIn(id, st.users[id - 1].role, st.users[id - 1].approved)
              && r.outcome == Outcome(None, Redirect(DashboardFor(st.users[id - 1].role)))
    ensures r.session != s ==> r.session.LoggedIn? && (r.session.role == CompanyRole ==> r.session.approved)
  {
    if verb == Get then Effect(st, s, Outcome(None, Render(LoginForm)))
    else if !HasLoginFields(form) then Effect(st, s, Outcome(None, BadRequest))
    else
      match Authenticate(st, h, form["email"], form["password"])
      case None => Effect(st, s, Outcome(Some(InvalidCredentials), Render(LoginForm)))
      case Some(id) =>
        var u := st.users[id - 1];
        if u.role == CompanyRole && !u.approved then
          Effect(st, s, Outcome(Some(NotApproved), Redirect(LoginPage)))
        else
          Effect(st, LoggedIn(id, u.role, u.approved), Outcome(None, Redirect(DashboardFor(u.role))))
  }

  /** The logout route: clears the session whatever it held. */
  function Logout(st: Store, s: Session): (r: Effect)
    ensures r.store == st && r.session == Anonymous
    ensures r.outcome == Outcome(None, Redirect(LoginPage))
  {
    Effect(st, Anonymous, Outcome(None, Redirect(LoginPage)))
  }

  /** An unknown email and a wrong password are indistinguishable to the
      client: same answer, session untouched. */
  lemma LoginFailuresIndistinguishable(st1: Store, st2: Store, s: Session, h: Hasher, form1: Form, form2: Form)
    requires HasLoginFields(form1) && HasLoginFields(form2)
    requires !EmailTaken(st1.users, form1["email"])
    requires EmailTaken(st2.users, form2["email"])
    requires var id := FindByEmail(st2.users, form2["email"]).value;
             !h.check(st2.users[id - 1].password, form2["password"])
    ensures Login(st1, s, h, Post, form1).outcome == Login(st2, s, h, Post, form2).outcome
    ensures Login(st1, s, h, Post, form1).session == s == Login(st2, s, h, Post, form2).session
  {
  }

  /** Login reads only the email, password digest, role and approval flag
      of users: two stores that agree on those columns give the same answer
      and the same session. */
  lemma LoginReadsCredentialsOnly(st: Store, st': Store, s: Session, h: Hasher, verb: Verb, form: Form)
    requires |st'.users| == |st.users|
    requires forall k :: 0 <= k < |st.users| ==>
               && st'.users[k].email == st.users[k].email
               && st'.users[k].password == st.users[k].password
               && st'.users[k].role == st.users[k].role
               && st'.users[k].approved == st.users[k].approved
    ensures Login(st', s, h, verb, form) == Login(st, s, h, verb, form).(store := st')
  {
    if verb == Post && HasLoginFields(form) {
      var email, pw := form["email"], form["password"];
      FindByEmailSameEmails(st.users, st'.users, email);
      assert Authenticate(st', h, email, pw) == Authenticate(st, h, email, pw);
    }
  }

  /** Every session login produces is consistent with the store: it names the
      authenticated user, and a company session carries approved = true. */
  lemma LoginEstablishesConsistentSession(st: Store, s: Session, h: Hasher, verb: Verb, form: Form)
    requires Consistent(st, s)
    ensures Consistent(st, Login(st, s, h, verb, form).session)
  {
  }

  /** Registration keeps the store valid: the new email is fresh and the new
      role is not admin. */
  lemma RegisterPreservesValid(st: Store, s: Session, h: Hasher, verb: Verb, form: Form)
    requires Valid(st)
    ensures Valid(Register(st, s, h, verb, form).store)
    ensures CountRole(Register(st, s, h, verb, form).store.users, AdminRole) == CountRole(st.users, AdminRole)
  {
    var st' := Register(st, s, h, verb, form).store;
    if RegisterAccepts(st, verb, form) {
      var u := st'.users[|st.users|];
      assert st'.users == st.users + [u];
      CountRoleAppend(st.users, u, AdminRole);
      forall i, j | 0 <= i < j < |st'.users|
        ensures st'.users[i].email != st'.users[j].email
      {
        if j == |st.users| {
          assert st.users[i].email != form["email"];
        }
      }
      forall d | 0 <= d < |st'.drives|
        ensures OwnedByCompany(st', st'.drives[d])
      {
        assert OwnedByCompany(st, st.drives[d]);
      }
    }
  }
}
