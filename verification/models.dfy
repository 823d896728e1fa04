/** The three tables of the placement portal (users, drives, applications),
    their column defaults, the constraints the schema declares, and the
    store-validity predicate that every request keeps. */
module Models {
  import opened Wrappers

  const AdminRole: string := "admin"
  const CompanyRole: string := "company"
  const StudentRole: string := "student"

  const Pending: string := "Pending"
  const Approved: string := "Approved"
  const Rejected: string := "Rejected"
  const Applied: string := "Applied"

  /** A row of the user table. `password` holds the stored digest, never the
      plain text; `role` is whatever string registration accepted. */
  datatype User = User(name: string, email: string, password: string,
                       role: string, approved: bool, active: bool)

  /** A row of the drive table. `companyId` is a nullable reference to a user
      id; eligibility and deadline are optional columns no handler sets. */
  datatype Drive = Drive(companyId: Option<nat>, title: string, description: string,
                         eligibility: Option<string>, deadline: Option<string>,
                         status: string)

  /** Stand-in for the creation time of an application; its value is never inspected. */
  type Timestamp = nat

  /** A row of the application table. No handler creates or changes one. */
  datatype Application = Application(studentId: Option<nat>, driveId: Option<nat>,
                                     appliedOn: Timestamp, status: string)

  /** The database. Rows are never deleted and ids are handed out as 1, 2, 3, …,
      so the row with id `k` is element `k - 1` and the next fresh id is the
      length plus one. */
  datatype Store = Store(users: seq<User>, drives: seq<Drive>, applications: seq<Application>)

  const EmptyStore: Store := Store([], [], [])

  /** A new user row: `active` defaults to true, `approved` to false when the
      caller supplies no value. */
  function NewUser(name: string, email: string, password: string, role: string,
                   approved: Option<bool>): (u: User)
    ensures u.name == name && u.email == email && u.password == password && u.role == role
    ensures u.active
    ensures u.approved <==> approved == Some(true)
  {
    var flag := match approved
      case Some(b) => b
      case None => false;
    User(name, email, password, role, flag, true)
  }

  /** A new drive row: status defaults to Pending. */
  function NewDrive(companyId: Option<nat>, title: string, description: string): (d: Drive)
    ensures d.companyId == companyId && d.title == title && d.description == description
    ensures d.status == Pending
    ensures d.eligibility.None? && d.deadline.None?
  {
    Drive(companyId, title, description, None, None, Pending)
  }

  /** A new application row: status defaults to Applied, the timestamp to `now`. */
  function NewApplication(studentId: Option<nat>, driveId: Option<nat>, now: Timestamp): (a: Application)
    ensures a.studentId == studentId && a.driveId == driveId
    ensures a.appliedOn == now && a.status == Applied
  {
    Application(studentId, driveId, now, Applied)
  }

  predicate IsUserId(st: Store, id: nat) {
    1 <= id <= |st.users|
  }

  predicate IsDriveId(st: Store, id: nat) {
    1 <= id <= |st.drives|
  }

  /** Lookup by primary key. */
  function GetUser(st: Store, id: nat): (r: Option<User>)
    ensures r.Some? <==> IsUserId(st, id)
    ensures r.Some? ==> r.value == st.users[id - 1]
  {
    if IsUserId(st, id) then Some(st.users[id - 1]) else None
  }

  predicate EmailTaken(users: seq<User>, email: string) {
    exists k :: 0 <= k < |users| && users[k].email == email
  }

  /** The first user (lowest id) with the given email, as an id. */
  function FindByEmail(users: seq<User>, email: string): (r: Option<nat>)
    ensures r.Some? ==> 1 <= r.value <= |users| && users[r.value - 1].email == email
    ensures r.Some? ==> forall k :: 0 <= k < r.value - 1 ==> users[k].email != email
    ensures r.None? <==> !EmailTaken(users, email)
  {
    FindFrom(users, email, 0)
  }

  function FindFrom(users: seq<User>, email: string, i: nat): (r: Option<nat>)
    requires i <= |users|
    ensures r.Some? ==> i < r.value <= |users| && users[r.value - 1].email == email
    ensures r.Some? ==> forall k :: i <= k < r.value - 1 ==> users[k].email != email
    ensures r.None? ==> forall k :: i <= k < |users| ==> users[k].email != email
    decreases |users| - i
  {
    if i == |users| then None
    else if users[i].email == email then Some(i + 1)
    else FindFrom(users, email, i + 1)
  }

  predicate AnyWithRole(users: seq<User>, role: string) {
    exists k :: 0 <= k < |users| && users[k].role == role
  }

  /** Number of users with the given role. */
  function CountRole(users: seq<User>, role: string): (n: nat)
    ensures n <= |users|
    ensures n == 0 <==> !AnyWithRole(users, role)
  {
    if |users| == 0 then 0
    else
      var init := users[..|users| - 1];
      assert forall k :: 0 <= k < |init| ==> init[k] == users[k];
      CountRole(init, role) + (if users[|users| - 1].role == role then 1 else 0)
  }

  /** The users with the given role, in id order. */
  function WithRole(users: seq<User>, role: string): (r: seq<User>)
    ensures |r| == CountRole(users, role)
    ensures forall u :: u in r ==> u in users && u.role == role
    ensures forall k :: 0 <= k < |users| && users[k].role == role ==> users[k] in r
  {
    if |users| == 0 then []
    else
      var init := users[..|users| - 1];
      var last := users[|users| - 1];
      assert users == init + [last];
      WithRole(init, role) + (if last.role == role then [last] else [])
  }

  /** Drive statuses the workflow can produce. */
  predicate KnownStatus(status: string) {
    status == Pending || status == Approved || status == Rejected
  }

  /** The drive refers to an existing user whose role is company. */
  predicate OwnedByCompany(st: Store, d: Drive) {
    d.companyId.Some? && IsUserId(st, d.companyId.value)
    && st.users[d.companyId.value - 1].role == CompanyRole
  }

  predicate UniqueEmails(users: seq<User>) {
    forall i, j :: 0 <= i < j < |users| ==> users[i].email != users[j].email
  }

  /** Store validity: the unique email constraint, at most one admin account,
      and every drive owned by a company user with a known status. */
  predicate Valid(st: Store) {
    && UniqueEmails(st.users)
    && CountRole(st.users, AdminRole) <= 1
    && forall d :: 0 <= d < |st.drives| ==>
         KnownStatus(st.drives[d].status) && OwnedByCompany(st, st.drives[d])
  }

  /** How one user row may evolve: only `approved` (never back to false) and
      `active` change. */
  predicate UserEvolves(u: User, u': User) {
    && u'.name == u.name && u'.email == u.email && u'.password == u.password
    && u'.role == u.role && (u.approved ==> u'.approved)
  }

  /** How the store may evolve under any request: rows are only appended,
      existing users evolve as above, drive owners never change, and the
      application table is untouched. */
  predicate Extends(st: Store, st': Store) {
    && |st.users| <= |st'.users|
    && (forall k :: 0 <= k < |st.users| ==> UserEvolves(st.users[k], st'.users[k]))
    && |st.drives| <= |st'.drives|
    && (forall k :: 0 <= k < |st.drives| ==> st'.drives[k].companyId == st.drives[k].companyId)
    && st'.applications == st.applications
  }

  /** st' differs from st in user `id` alone. */
  predicate OnlyUserChanged(st: Store, st': Store, id: nat) {
    && |st'.users| == |st.users|
    && (forall k :: 0 <= k < |st.users| && k != id - 1 ==> st'.users[k] == st.users[k])
    && st'.drives == st.drives && st'.applications == st.applications
  }

  /** st' differs from st in drive `id` alone. */
  predicate OnlyDriveChanged(st: Store, st': Store, id: nat) {
    && |st'.drives| == |st.drives|
    && (forall k :: 0 <= k < |st.drives| && k != id - 1 ==> st'.drives[k] == st.drives[k])
    && st'.users == st.users && st'.applications == st.applications
  }

  lemma {:induction false} CountRoleAppend(users: seq<User>, u: User, role: string)
    ensures CountRole(users + [u], role) == CountRole(users, role) + (if u.role == role then 1 else 0)
  {
    assert (users + [u])[..|users|] == users;
  }

  /** The count depends on the roles alone. */
  lemma {:induction false} CountRoleSameRoles(a: seq<User>, b: seq<User>, role: string)
    requires |a| == |b|
    requires forall k :: 0 <= k < |a| ==> a[k].role == b[k].role
    ensures CountRole(a, role) == CountRole(b, role)
    decreases |a|
  {
    if |a| > 0 {
      CountRoleSameRoles(a[..|a| - 1], b[..|b| - 1], role);
    }
  }

  /** Students and companies are disjoint sets of users, so their counts never
      exceed the total. */
  lemma {:induction false} RoleCountsWithinTotal(users: seq<User>, r1: string, r2: string)
    requires r1 != r2
    ensures CountRole(users, r1) + CountRole(users, r2) <= |users|
    decreases |users|
  {
    if |users| > 0 {
      RoleCountsWithinTotal(users[..|users| - 1], r1, r2);
    }
  }

  /** Lookup by email looks at emails alone. */
  lemma FindByEmailSameEmails(a: seq<User>, b: seq<User>, email: string)
    requires |a| == |b|
    requires forall k :: 0 <= k < |a| ==> a[k].email == b[k].email
    ensures FindByEmail(a, email) == FindByEmail(b, email)
  {
  }

  /** Lookup by email finds exactly the holder when emails are unique. */
  lemma FindByEmailUnique(users: seq<User>, k: nat)
    requires UniqueEmails(users)
    requires k < |users|
    ensures FindByEmail(users, users[k].email) == Some(k + 1)
  {
    var r := FindByEmail(users, users[k].email);
    assert EmailTaken(users, users[k].email);
    assert r.Some?;
  }
}
