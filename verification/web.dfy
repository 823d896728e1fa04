/** What a request sees besides the store: the client's session, the HTTP
    verb and form, the password-hashing primitive, and what a handler answers
    (a redirect, a rendered view or plain text, with at most one flashed
    message). */
module Web {
  import opened Wrappers
  import opened Models

  /** The signed client session: empty, or the three keys login writes. */
  datatype Session = Anonymous | LoggedIn(userId: nat, role: string, approved: bool)

  datatype Verb = Get | Post

  /** Submitted form fields; a missing key is an absent field. */
  type Form = map<string, string>

  /** Redirect targets. */
  datatype Page =
    | LoginPage | RegisterPage
    | AdminDashboardPage | CompanyDashboardPage | StudentDashboardPage
    | AdminCompaniesPage | AdminStudentsPage | AdminDrivesPage

  /** Rendered templates, with the data handed to them. */
  datatype View =
    | LoginForm | RegisterForm | CreateDriveForm
    | CompanyHome | StudentHome
    | AdminHome(students: nat, companies: nat, users: nat)
    | UserList(rows: seq<User>)
    | DriveList(drives: seq<Drive>)

  datatype Response = Redirect(page: Page) | Render(view: View) | Text(body: string) | BadRequest

  datatype Outcome = Outcome(flash: Option<string>, response: Response)

  /** The effect of one request: the store and session afterwards, and the answer. */
  datatype Effect = Effect(store: Store, session: Session, outcome: Outcome)

  /** The password-hashing primitive, left uninterpreted: `hash` digests a
      plain-text password, `check(digest, plain)` verifies one. */
  datatype Hasher = Hasher(hash: string -> string, check: (string, string) -> bool)

  /** The session's role key equals `role`; an empty session has no role. */
  predicate SessionIs(s: Session, role: string) {
    s.LoggedIn? && s.role == role
  }

  /** The answer of every guarded route to a session without the required role. */
  function Deny(st: Store, s: Session): (r: Effect)
    ensures r.store == st && r.session == s
    ensures r.outcome.flash.None? && r.outcome.response == Redirect(LoginPage)
  {
    Effect(st, s, Outcome(None, Redirect(LoginPage)))
  }

  /** Where a successful login sends each role: admin and company to their
      dashboards, every other role to the student dashboard. */
  function DashboardFor(role: string): (p: Page)
    ensures p == AdminDashboardPage <==> role == AdminRole
    ensures p == CompanyDashboardPage <==> role == CompanyRole
    ensures p == StudentDashboardPage <==> role != AdminRole && role != CompanyRole
  {
    if role == AdminRole then AdminDashboardPage
    else if role == CompanyRole then CompanyDashboardPage
    else StudentDashboardPage
  }

  /** A session agrees with the store: it names an existing user with that
      role, its approval flag was true for the user when set (and approval is
      never withdrawn), and a company session is always an approved one. */
  predicate Consistent(st: Store, s: Session) {
    s.LoggedIn? ==>
      && IsUserId(st, s.userId)
      && st.users[s.userId - 1].role == s.role
      && (s.approved ==> st.users[s.userId - 1].approved)
      && (s.role == CompanyRole ==> s.approved)
  }

  /** A session stays consistent as the store evolves. */
  lemma ConsistentUnderExtends(st: Store, st': Store, s: Session)
    requires Extends(st, st') && Consistent(st, s)
    ensures Consistent(st', s)
  {
    if s.LoggedIn? {
      assert UserEvolves(st.users[s.userId - 1], st'.users[s.userId - 1]);
    }
  }
}
